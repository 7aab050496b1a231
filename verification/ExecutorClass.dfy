/** The block executor over a mutable state. Each method is proved against the function
    it computes. */
module ExecutorClass {
  import opened Types
  import opened Ledger
  import opened Calls
  import opened Operations
  import opened Blocks

  /** What came before, put in front of the outcome of the remaining calls. */
  function After(gas: nat, trace: seq<Frame>, r: Exec): Exec {
    if r.ok then Exec(r.ledger, r.fuel, gas + r.gas, true, trace + r.trace) else Fail(r.ledger, r.fuel, trace + r.trace)
  }

  lemma QueueStep(env: Env, l: Ledger, caller: Id, calls: seq<Queued>, height: nat, depth: nat, fuel: nat,
                  policy: Option<Policy>, gas: nat, trace: seq<Frame>, one: Exec)
    requires calls != []
    requires var q := calls[0];
      one == Dispatch(env, l, Invocation(caller, q.target, q.callMethod, q.args, 0), height, depth, fuel, policy)
    ensures After(gas, trace, DispatchAll(env, l, caller, calls, height, depth, fuel, policy)) ==
            if one.ok
            then After(gas + one.gas, trace + one.trace,
                       DispatchAll(env, one.ledger, caller, calls[1..], height, depth, one.fuel, policy))
            else Fail(one.ledger, one.fuel, trace + one.trace)
  {
  }

  lemma ActionStep(env: Env, l: Ledger, sender: Id, actions: seq<Action>, pending: map<Id, nat>, height: nat,
                   policy: Option<Policy>, done: Progress)
    requires actions != []
    ensures var a := actions[0];
      var one := RunAction(env, l, sender, a, ValueFor(pending, a), height, policy);
      Combine(done, RunActions(env, l, sender, actions, pending, height, policy)) ==
        if one.ok
        then Combine(Combine(done, one), RunActions(env, one.ledger, sender, actions[1..], Track(pending, a), height, policy))
        else Combine(done, one)
  {
    var a := actions[0];
    var one := RunAction(env, l, sender, a, ValueFor(pending, a), height, policy);
    if one.ok {
      var rest := RunActions(env, one.ledger, sender, actions[1..], Track(pending, a), height, policy);
      assert done.trace + (one.trace + rest.trace) == done.trace + one.trace + rest.trace;
    }
  }

  class BlockExecutor {
    const env: Env
    const state: StateManager

    constructor (env: Env, state: StateManager)
      ensures this.env == env && this.state == state
    {
      this.env := env;
      this.state := state;
    }

    /** Native transfers of a contract, one by one. */
    method PayTransfers(from: Id, transfers: seq<Transferral>) returns (covered: bool)
      modifies state
      ensures (state.ledger, covered) == PayOut(old(state.ledger), from, transfers)
    {
      var todo := transfers;
      while todo != []
        invariant PayOut(state.ledger, from, todo) == PayOut(old(state.ledger), from, transfers)
        decreases |todo|
      {
        var t := todo[0];
        if from !in state.ledger.accounts { return false; }
        var contract := state.ledger.accounts[from];
        if contract.balance < t.amount { return false; }
        ghost var before := state.ledger;
        state.SaveAccount(from, contract.(balance := contract.balance - t.amount));
        if t.to in state.ledger.accounts {
          var recipient := state.ledger.accounts[t.to];
          state.SaveAccount(t.to, recipient.(balance := SatAdd(recipient.balance, t.amount)));
        } else {
          state.SaveAccount(t.to, Account(NO_CODE, [], 0, t.amount));
        }
        assert state.ledger == PayOne(before, from, t);
        todo := todo[1..];
      }
      covered := true;
    }

    /** `dispatch_contract_call` */
    method DispatchCall(c: Invocation, height: nat, depth: nat, fuel: nat, policy: Option<Policy>) returns (r: Exec)
      modifies state
      ensures r == Dispatch(env, old(state.ledger), c, height, depth, fuel, policy) && state.ledger == r.ledger
      decreases DepthLeft(depth), 1
    {
      if depth > MAX_CALL_DEPTH { return Fail(state.ledger, fuel, []); }
      if depth > 0 && !Permits(policy, c.target, c.callMethod) { return Fail(state.ledger, fuel, []); }
      if IsSystem(c.target) {
        if !env.isUtf8(c.callMethod) { return Fail(state.ledger, fuel, []); }
        var s := env.systemCall(state.ledger, c.caller, c.target, c.callMethod, c.args);
        state.ledger := s.ledger;
        var frame := Frame(depth, c, true, 0, None);
        if !s.ok { return Fail(state.ledger, fuel, [frame]); }
        return Exec(state.ledger, fuel, CALL_BASE_GAS + s.gas, true, [frame]);
      }
      if c.target !in state.ledger.accounts { return Fail(state.ledger, fuel, []); }
      var account := state.ledger.accounts[c.target];
      if account.codeHash == NO_CODE {
        return Exec(state.ledger, fuel, CALL_BASE_GAS, true, [Frame(depth, c, false, 0, None)]);
      }
      if account.codeHash !in state.ledger.code { return Fail(state.ledger, fuel, []); }
      if fuel == 0 { return Fail(state.ledger, fuel, []); }
      r := RunCode(c, height, depth, fuel, policy);
    }

    /** The part of a call that runs the contract: VM, storage, payouts, queued calls. */
    method RunCode(c: Invocation, height: nat, depth: nat, fuel: nat, policy: Option<Policy>) returns (r: Exec)
      requires RunsCode(state.ledger, c, depth, fuel, policy)
      modifies state
      ensures r == Dispatch(env, old(state.ledger), c, height, depth, fuel, policy) && state.ledger == r.ledger
      decreases DepthLeft(depth), 0
    {
      var input := VmInput(state.ledger, c, height, fuel);
      var v := env.vm(input);
      if v.VmFailed? { return Fail(state.ledger, fuel, [Frame(depth, c, false, v.gas, Some(input))]); }
      var left := if v.gas <= fuel then fuel - v.gas else 0;
      state.ledger := SaveStorage(env, state.ledger, c.target, v.storage);
      var covered := PayTransfers(c.target, v.transfers);
      var frame := Frame(depth, c, false, v.gas, Some(input));
      if !covered { return Fail(state.ledger, left, [frame]); }
      var rest := DispatchQueue(c.target, v.calls, height, depth + 1, left, policy);
      r := After(CALL_BASE_GAS + v.gas, [frame], rest);
    }

    /** The loop over the calls a frame queued; the fuel budget is shared. */
    method DispatchQueue(caller: Id, calls: seq<Queued>, height: nat, depth: nat, fuel: nat, policy: Option<Policy>)
      returns (r: Exec)
      modifies state
      ensures r == DispatchAll(env, old(state.ledger), caller, calls, height, depth, fuel, policy)
      ensures state.ledger == r.ledger
      decreases DepthLeft(depth), 2
    {
      var queue, left := calls, fuel;
      var gas: nat, trace: seq<Frame> := 0, [];
      ghost var goal := DispatchAll(env, state.ledger, caller, calls, height, depth, fuel, policy);
      while queue != []
        invariant After(gas, trace, DispatchAll(env, state.ledger, caller, queue, height, depth, left, policy)) == goal
        decreases |queue|
      {
        var q := queue[0];
        ghost var before := state.ledger;
        var one := DispatchCall(Invocation(caller, q.target, q.callMethod, q.args, 0), height, depth, left, policy);
        QueueStep(env, before, caller, queue, height, depth, left, policy, gas, trace, one);
        if !one.ok { return Fail(one.ledger, one.fuel, trace + one.trace); }
        left, gas, trace, queue := one.fuel, gas + one.gas, trace + one.trace, queue[1..];
      }
      r := Exec(state.ledger, left, gas, true, trace);
    }

    /** One action of an operation, system calls included. */
    method ExecuteAction(sender: Id, a: Action, msgValue: nat, height: nat, policy: Option<Policy>) returns (r: Progress)
      modifies state
      ensures r == RunAction(env, old(state.ledger), sender, a, msgValue, height, policy) && state.ledger == r.ledger
    {
      match a
      case Transfer(to, amount) =>
        var isNew := to !in state.ledger.accounts;
        var ok := state.Transfer(sender, to, amount);
        if !ok { return Stopped(state.ledger, 0, []); }
        r := Progress(state.ledger, if isNew then TRANSFER_GAS + ACCOUNT_CREATION_GAS else TRANSFER_GAS, true, [], 0);
      case Call(target, callMethod, args) =>
        var c := Invocation(sender, target, callMethod, args, msgValue);
        if IsSystem(target) {
          var s := env.systemCall(state.ledger, sender, target, callMethod, args);
          state.ledger := s.ledger;
          return Progress(state.ledger, s.gas, s.ok, [Frame(0, c, true, 0, None)], 0);
        }
        var e := DispatchCall(c, height, 0, MAX_CALL_TREE_FUEL, policy);
        r := if e.ok then Progress(e.ledger, e.gas, true, e.trace, 0) else Stopped(e.ledger, 0, e.trace);
      case SetAuth(auth) =>
        if auth == [] { return Stopped(state.ledger, 0, []); }
        for i := 0 to |auth|
          invariant forall j :: 0 <= j < i ==> AuthValid(state.ledger, auth[j])
          invariant state.ledger == old(state.ledger)
        {
          if !AuthValid(state.ledger, auth[i]) { return Stopped(state.ledger, 0, []); }
        }
        if sender !in state.ledger.accounts { return Stopped(state.ledger, 0, []); }
        state.SaveAccount(sender, state.ledger.accounts[sender].(auth := auth));
        r := Progress(state.ledger, SET_AUTH_GAS, true, [], 0);
      case Deploy(code, salt) =>
        r := ExecuteDeploy(sender, code, salt);
    }

    method ExecuteDeploy(sender: Id, code: Bytes, salt: Id) returns (r: Progress)
      modifies state
      ensures r == DeployTo(env, old(state.ledger), sender, code, salt) && state.ledger == r.ledger
    {
      if |code| > MAX_CODE_SIZE { return Stopped(state.ledger, 0, []); }
      var h := env.codeHash(code);
      state.ledger := state.ledger.(code := state.ledger.code[h := code]);
      var id := env.address(sender, salt, h);
      if id in state.ledger.accounts && state.ledger.accounts[id].codeHash != NO_CODE {
        return Stopped(state.ledger, 0, []);
      }
      var lost := BalanceOf(state.ledger, id);
      var auth := if sender in state.ledger.accounts then state.ledger.accounts[sender].auth else [];
      state.SaveAccount(id, Account(h, auth, 0, 0));
      r := Progress(state.ledger, DEPLOY_BASE_GAS, true, [], lost);
    }

    /** `validate_and_prepare` */
    method ValidateOp(op: UserOperation, height: nat) returns (p: Option<Prepared>)
      modifies state
      ensures p == Validate(env, old(state.ledger), op, height)
      ensures state.ledger == if p.Some? then p.value.ledger else old(state.ledger)
    {
      if op.sender !in state.ledger.accounts { return None; }
      if SystemAuthorized(op) { return Some(Prepared(state.ledger, None, None)); }
      var auth := state.ledger.accounts[op.sender].auth;
      if !Signed(env, auth, op, height) { return None; }
      var session := SessionFor(env, auth, op);
      var charge, policy := None, None;
      if session.Some? {
        if !SessionAllows(state.ledger, op, session.value) { return None; }
        charge, policy := ChargeOf(state.ledger, op, session.value), PolicyOf(session.value);
      }
      var ok := state.UseNonce(op.sender, op.nonce);
      if !ok { return None; }
      p := Some(Prepared(state.ledger, charge, policy));
    }

    /** The loop over an operation's actions, with the native value each target is owed. */
    method ExecuteActions(op: UserOperation, height: nat, policy: Option<Policy>) returns (r: Progress)
      modifies state
      ensures r == RunActions(env, old(state.ledger), op.sender, op.actions, map[], height, policy)
      ensures state.ledger == r.ledger
    {
      var todo: seq<Action>, pending: map<Id, nat> := op.actions, map[];
      r := Progress(state.ledger, 0, true, [], 0);
      while todo != []
        invariant r.ok && r.ledger == state.ledger
        invariant Combine(r, RunActions(env, state.ledger, op.sender, todo, pending, height, policy))
               == RunActions(env, old(state.ledger), op.sender, op.actions, map[], height, policy)
        decreases |todo|
      {
        ActionStep(env, state.ledger, op.sender, todo, pending, height, policy, r);
        var one := ExecuteAction(op.sender, todo[0], ValueFor(pending, todo[0]), height, policy);
        r := Combine(r, one);
        if !one.ok { return; }
        pending, todo := Track(pending, todo[0]), todo[1..];
      }
    }

    /** Refund the reserve, charge the fee, credit the treasury, charge the session. */
    method SettleFees(op: UserOperation, height: nat, reserve: nat, charge: Charge, run: Progress)
      returns (r: OpResult)
      requires run.ok && run.ledger == state.ledger
      modifies state
      ensures r == Settle(env, op, height, reserve, charge, run) && state.ledger == r.ledger
    {
      var burn := BurnRate(env, state.ledger);
      var fix := height >= env.feeFixHeight;
      var due := FeeFor(env.fees, run.gas, op.maxFee, fix);
      var fee: nat, credit: nat := 0, 0;
      if (reserve > 0 || due > 0) && op.sender in state.ledger.accounts {
        var sender := state.ledger.accounts[op.sender];
        var available := SatAdd(sender.balance, reserve);
        var paid := if fix then Min(due, available) else due;
        state.SaveAccount(op.sender, sender.(balance := SatSub(available, paid)));
        fee := Min(paid, available);
        var share := TreasuryShare(paid, burn);
        if env.fees.treasury in state.ledger.accounts {
          credit := share;
          var treasury := state.ledger.accounts[env.fees.treasury];
          if share > 0 { state.SaveAccount(env.fees.treasury, treasury.(balance := SatAdd(treasury.balance, share))); }
        }
      }
      if charge.Some? {
        state.ledger := state.ledger.(spent := state.ledger.spent[charge.value.0 := charge.value.1]);
      }
      r := OpResult(state.ledger, true, true, run.gas, fee, credit, run.trace, run.lost);
    }

    /** The failure path: restore the savepoint, take the nonce, charge the gas. */
    method ChargeFailure(savepoint: Ledger, op: UserOperation, height: nat, run: Progress) returns (r: OpResult)
      modifies state
      ensures r == RollBack(env, savepoint, op, height, run) && state.ledger == r.ledger
    {
      state.ledger := savepoint;
      var _ := state.UseNonce(op.sender, op.nonce);
      var due := FeeFor(env.fees, run.gas, op.maxFee, height >= env.feeFixHeight);
      var fee := Min(due, BalanceOf(state.ledger, op.sender));
      if due > 0 && op.sender in state.ledger.accounts {
        var account := state.ledger.accounts[op.sender];
        state.SaveAccount(op.sender, account.(balance := SatSub(account.balance, due)));
      }
      r := OpResult(state.ledger, true, false, run.gas, fee, 0, run.trace, 0);
    }

    /** `execute_operation` */
    method ExecuteOperation(op: UserOperation, height: nat) returns (r: OpResult)
      modifies state
      ensures r == ExecuteOp(env, old(state.ledger), op, height) && state.ledger == r.ledger
    {
      if !WellFormed(env, op) { return Rejected(state.ledger); }
      var p := ValidateOp(op, height);
      if p.None? { return Rejected(state.ledger); }
      var savepoint := state.ledger;
      var reserve := Reserve(state.ledger, op);
      if op.sender in state.ledger.accounts {
        var sender := state.ledger.accounts[op.sender];
        state.SaveAccount(op.sender, sender.(balance := sender.balance - reserve));
      }
      assert state.ledger == Reserved(savepoint, op);
      var run := ExecuteActions(op, height, p.value.policy);
      if run.ok {
        r := SettleFees(op, height, reserve, p.value.charge, run);
      } else {
        r := ChargeFailure(savepoint, op, height, run);
      }
    }

    /** `execute_block_sequential` */
    method ExecuteSequential(ops: seq<UserOperation>, height: nat) returns (outcomes: seq<Outcome>)
      modifies state
      ensures outcomes == Sequential(env, old(state.ledger), ops, height)
      ensures state.ledger == LastLedger(old(state.ledger), outcomes)
    {
      outcomes := [];
      var todo := ops;
      while todo != []
        invariant outcomes + Sequential(env, state.ledger, todo, height) == Sequential(env, old(state.ledger), ops, height)
        invariant state.ledger == LastLedger(old(state.ledger), outcomes)
        decreases |todo|
      {
        ghost var rest := Sequential(env, ExecuteOp(env, state.ledger, todo[0], height).ledger, todo[1..], height);
        var r := ExecuteOperation(todo[0], height);
        assert outcomes + ([OutcomeOf(r)] + rest) == outcomes + [OutcomeOf(r)] + rest;
        outcomes, todo := outcomes + [OutcomeOf(r)], todo[1..];
      }
    }

    /** `execute_block_parallel`: signatures first, on the accounts as they are, then the
        operations that passed, in order. */
    method ExecuteParallel(ops: seq<UserOperation>, height: nat) returns (outcomes: seq<Outcome>)
      modifies state
      ensures outcomes == Parallel(env, old(state.ledger), old(state.ledger), ops, height)
      ensures state.ledger == LastLedger(old(state.ledger), outcomes)
    {
      var start := state.ledger;
      var checks := seq(|ops|, i requires 0 <= i < |ops| => PreCheck(env, start, ops[i], height));
      outcomes := [];
      var i := 0;
      while i < |ops|
        invariant i <= |ops|
        invariant outcomes + Parallel(env, start, state.ledger, ops[i..], height) == Parallel(env, start, start, ops, height)
        invariant state.ledger == LastLedger(start, outcomes)
      {
        assert ops[i..][0] == ops[i] && ops[i..][1..] == ops[i + 1..];
        ghost var o := ParallelOp(env, start, state.ledger, ops[i], height);
        ghost var rest := Parallel(env, start, o.ledger, ops[i + 1..], height);
        assert outcomes + ([o] + rest) == outcomes + [o] + rest;
        if checks[i] {
          var r := ExecuteOperation(ops[i], height);
          outcomes := outcomes + [OutcomeOf(r)];
        } else {
          outcomes := outcomes + [Outcome(state.ledger, Receipt(false, 0))];
        }
        i := i + 1;
      }
    }
  }
}
