/** What a session key can reach: its allowlist over the whole call tree, and its
    lifetime budget. */
module Sessions {
  import opened Types
  import opened Ledger
  import opened Calls
  import opened Operations
  import opened OperationLaws
  import opened Frames
  import opened Nonces

  predicate Listed(s: AuthMethod, c: Invocation)
    requires s.Session?
  {
    (s.allowedTargets == [] || c.target in s.allowedTargets) && (s.allowedMethods == [] || c.callMethod in s.allowedMethods)
  }

  /** Whatever contracts do, an operation signed by a session key reaches at the top
      only listed targets and methods, and with sub-call restriction in every frame. */
  lemma SessionConfined(env: Env, l: Ledger, op: UserOperation, height: nat, s: AuthMethod, i: nat)
    requires !SystemAuthorized(op) && ExecuteOp(env, l, op, height).valid && op.sender in l.accounts
    requires SessionFor(env, l.accounts[op.sender].auth, op) == Some(s)
    requires i < |ExecuteOp(env, l, op, height).trace|
    ensures var f := ExecuteOp(env, l, op, height).trace[i];
      f.depth == 0 || s.restrictSubcalls ==> Listed(s, f.call)
  {
    OpFrames(env, l, op, height, i);
    var p, f := Validate(env, l, op, height).value, ExecuteOp(env, l, op, height).trace[i];
    if f.depth == 0 {
      var j: nat :| IsAction(f, op.sender, op.actions, j);
      assert SessionAllows(l, op, s) && TargetAllowed(s, op.actions[j]) && MethodAllowed(s, op.actions[j]);
    } else {
      assert p.policy == PolicyOf(s);
    }
  }

  /** A session's running total grows by exactly what a successful operation spends, never
      past its budget, and not at all when the operation fails. */
  lemma SessionBudget(env: Env, l: Ledger, op: UserOperation, height: nat, s: AuthMethod)
    requires !SystemAuthorized(op) && Total(l) <= MAX_U128 && op.sender in l.accounts
    requires SessionFor(env, l.accounts[op.sender].auth, op) == Some(s) && s.budgetTotal > 0
    requires NoSystem(ExecuteOp(env, l, op, height).trace) && SpentBy(l, op.sender, s.sessionKey) <= MAX_U128
    ensures var r := ExecuteOp(env, l, op, height);
      SpentBy(r.ledger, op.sender, s.sessionKey) ==
        if r.success then SatAdd(SpentBy(l, op.sender, s.sessionKey), Spend(op.actions)) else SpentBy(l, op.sender, s.sessionKey)
    ensures ExecuteOp(env, l, op, height).success ==>
              SpentBy(ExecuteOp(env, l, op, height).ledger, op.sender, s.sessionKey) <= s.budgetTotal
  {
    var r := ExecuteOp(env, l, op, height);
    if r.valid {
      var p, run := OpRun(env, l, op, height);
      if r.success {
        ReservedTotal(env, l, op, height);
        ActionsOk(env, Reserved(p.ledger, op), op.sender, op.actions, map[], height, p.policy);
        SettledSpent(env, op, height, Reserve(p.ledger, op), p.charge, run);
        assert p.charge == ChargeOf(l, op, s);
      } else {
        FailureFrame(env, l, op, height);
      }
    }
  }

  lemma SettledSpent(env: Env, op: UserOperation, height: nat, reserve: nat, charge: Charge, run: Progress)
    requires run.ok
    ensures Settle(env, op, height, reserve, charge, run).ledger.spent ==
            if charge.Some? then run.ledger.spent[charge.value.0 := charge.value.1] else run.ledger.spent
  {
  }

  // ---------- No privilege through a session key ----------

  ghost predicate Harmless(actions: seq<Action>) {
    forall i :: 0 <= i < |actions| ==> !actions[i].SetAuth? && !actions[i].Deploy?
  }

  /** Transfers and calls leave every account's authorisation, code and nonce. */
  lemma {:induction false} HarmlessRun(env: Env, l: Ledger, sender: Id, actions: seq<Action>, pending: map<Id, nat>, height: nat,
                                       policy: Option<Policy>)
    requires Harmless(actions) && Total(l) <= MAX_U128
    requires var r := RunActions(env, l, sender, actions, pending, height, policy); r.ok && NoSystem(r.trace)
    ensures Stable(l, RunActions(env, l, sender, actions, pending, height, policy).ledger)
    decreases |actions|
  {
    if actions != [] {
      var a := actions[0];
      var r := RunAction(env, l, sender, a, ValueFor(pending, a), height, policy);
      var rest := RunActions(env, r.ledger, sender, actions[1..], Track(pending, a), height, policy);
      PartsPlain(r.trace, rest.trace);
      SystemShows(env, l, sender, a, ValueFor(pending, a), height, policy);
      HarmlessAction(env, l, sender, a, ValueFor(pending, a), height, policy);
      ActionOk(env, l, sender, a, ValueFor(pending, a), height, policy);
      HarmlessRun(env, r.ledger, sender, actions[1..], Track(pending, a), height, policy);
      StableTransitive(l, r.ledger, rest.ledger);
    }
  }

  lemma HarmlessAction(env: Env, l: Ledger, sender: Id, a: Action, msgValue: nat, height: nat, policy: Option<Policy>)
    requires !a.SetAuth? && !a.Deploy? && !(a.Call? && IsSystem(a.target)) && Total(l) <= MAX_U128
    requires var r := RunAction(env, l, sender, a, msgValue, height, policy); r.ok && NoSystem(r.trace)
    ensures Stable(l, RunAction(env, l, sender, a, msgValue, height, policy).ledger)
  {
    match a
    case Transfer(to, amount) => TransferConserves(l, sender, to, amount);
    case Call(target, callMethod, args) =>
      DispatchOk(env, l, Invocation(sender, target, callMethod, args, msgValue), height, 0, MAX_CALL_TREE_FUEL, policy);
  }

  /** A session key can neither change who may sign for an account nor deploy: after an
      operation it signed, every account that existed has the code and the authorisation
      it had before. It also acts only before it expires and within its spending limit. */
  lemma SessionUnprivileged(env: Env, l: Ledger, op: UserOperation, height: nat, s: AuthMethod, id: Id)
    requires !SystemAuthorized(op) && Total(l) <= MAX_U128 && op.sender in l.accounts && id in l.accounts
    requires SessionFor(env, l.accounts[op.sender].auth, op) == Some(s)
    requires ExecuteOp(env, l, op, height).success && NoSystem(ExecuteOp(env, l, op, height).trace)
    ensures var r := ExecuteOp(env, l, op, height);
      && id in r.ledger.accounts
      && r.ledger.accounts[id].auth == l.accounts[id].auth && r.ledger.accounts[id].codeHash == l.accounts[id].codeHash
    ensures l.tipHeight <= s.expiresAt && (s.spendingLimit > 0 ==> Spend(op.actions) <= s.spendingLimit)
  {
    var p, run := OpRun(env, l, op, height);
    ValidateWrites(env, l, op, height);
    ReservedTotal(env, l, op, height);
    var reserved := Reserved(p.ledger, op);
    assert SessionAllows(l, op, s);
    assert Harmless(op.actions) by {
      forall i | 0 <= i < |op.actions| ensures !op.actions[i].SetAuth? && !op.actions[i].Deploy? {
        assert !Privileged(op.actions[i]);
      }
    }
    HarmlessRun(env, reserved, op.sender, op.actions, map[], height, p.policy);
    SettledIdentity(env, op, height, Reserve(p.ledger, op), p.charge, run, id);
  }

}
