/** How the code and the signers of an account change. */
module AccountChanges {
  import opened Types
  import opened Ledger
  import opened Calls
  import opened CallTree
  import opened Operations
  import opened OperationLaws
  import opened Nonces
  import opened Isolation

  // ---------- One action ----------

  /** A method an account may be given: a threshold that its signers can reach, a guardian
      that exists, anything else as it is. */
  predicate Acceptable(l: Ledger, m: AuthMethod) {
    match m
    case Threshold(signers, threshold) => 1 <= threshold <= |signers|
    case Guardian(guardianId) => guardianId in l.accounts
    case _ => true
  }

  /** Replacing the signers works exactly for a non-empty list of acceptable methods, and
      replaces them and nothing else. */
  lemma SetAuthIff(env: Env, l: Ledger, sender: Id, auth: seq<AuthMethod>, msgValue: nat, height: nat, policy: Option<Policy>)
    ensures var r := RunAction(env, l, sender, SetAuth(auth), msgValue, height, policy);
      && (r.ok <==> sender in l.accounts && auth != [] && forall m :: m in auth ==> Acceptable(l, m))
      && (r.ok ==> r.ledger == l.(accounts := l.accounts[sender := l.accounts[sender].(auth := auth)]) && r.trace == [])
      && (!r.ok ==> r.ledger == l)
  {
    assert forall i :: 0 <= i < |auth| ==> (Acceptable(l, auth[i]) <==> AuthValid(l, auth[i]));
    if i :| 0 <= i < |auth| && !AuthValid(l, auth[i]) { assert !Acceptable(l, auth[i]) && auth[i] in auth; }
    if m :| m in auth && !Acceptable(l, m) {
      var i :| 0 <= i < |auth| && auth[i] == m;
      assert !AuthValid(l, auth[i]);
    }
  }

  /** A deployment works exactly for code of at most 4 MB at an address without code; it
      stores the code and puts an account there with that code, the deployer's signers, no
      balance and nonce zero. */
  lemma DeployIff(env: Env, l: Ledger, sender: Id, code: Bytes, salt: Id, msgValue: nat, height: nat, policy: Option<Policy>)
    ensures var r := RunAction(env, l, sender, Deploy(code, salt), msgValue, height, policy);
      var h := env.codeHash(code); var id := env.address(sender, salt, h);
      && (r.ok <==> |code| <= 4 * 1024 * 1024 && (id in l.accounts ==> l.accounts[id].codeHash == 0))
      && (r.ok ==>
            && h in r.ledger.code && r.ledger.code[h] == code && r.lost == BalanceOf(l, id)
            && var auth := if sender in l.accounts then l.accounts[sender].auth else [];
               r.ledger.accounts == l.accounts[id := Account(h, auth, 0, 0)])
  {
  }

  /** A top-level call to a system contract is made by the sender itself, and leaves exactly
      what the contract leaves. */
  lemma SystemAction(env: Env, l: Ledger, sender: Id, target: Id, callMethod: Bytes, args: Bytes, msgValue: nat, height: nat,
                     policy: Option<Policy>)
    requires IsSystem(target)
    ensures var r := RunAction(env, l, sender, Call(target, callMethod, args), msgValue, height, policy);
      var s := env.systemCall(l, sender, target, callMethod, args);
      r.ok == s.ok && r.ledger == s.ledger && r.gas == s.gas && r.lost == 0 && !NoSystem(r.trace)
  {
    SystemShows(env, l, sender, Call(target, callMethod, args), msgValue, height, policy);
  }

  // ---------- The sender's signers after an operation ----------

  /** The last list an operation sets, or the one before it. */
  function LastAuth(actions: seq<Action>, auth: seq<AuthMethod>): seq<AuthMethod> {
    if actions == [] then auth
    else LastAuth(actions[1..], if actions[0].SetAuth? then actions[0].authMethods else auth)
  }

  lemma ActionAuth(env: Env, l: Ledger, sender: Id, a: Action, msgValue: nat, height: nat, policy: Option<Policy>)
    requires Total(l) <= MAX_U128 && sender in l.accounts && !(a.Deploy? && DeployAddress(env, sender, a) == sender)
    requires var r := RunAction(env, l, sender, a, msgValue, height, policy); r.ok && NoSystem(r.trace)
    ensures var r := RunAction(env, l, sender, a, msgValue, height, policy).ledger;
      && sender in r.accounts && r.accounts[sender].codeHash == l.accounts[sender].codeHash
      && r.accounts[sender].auth == if a.SetAuth? then a.authMethods else l.accounts[sender].auth
  {
    SystemShows(env, l, sender, a, msgValue, height, policy);
    match a
    case Transfer(to, amount) => TransferConserves(l, sender, to, amount);
    case Call(target, callMethod, args) =>
      DispatchOk(env, l, Invocation(sender, target, callMethod, args, msgValue), height, 0, MAX_CALL_TREE_FUEL, policy);
    case SetAuth(_) =>
    case Deploy(_, _) =>
  }

  lemma {:induction false} RunAuth(env: Env, l: Ledger, sender: Id, actions: seq<Action>, pending: map<Id, nat>, height: nat,
                                   policy: Option<Policy>)
    requires Total(l) <= MAX_U128 && sender in l.accounts && !DeploysTo(env, sender, actions, sender)
    requires var r := RunActions(env, l, sender, actions, pending, height, policy); r.ok && NoSystem(r.trace)
    ensures var r := RunActions(env, l, sender, actions, pending, height, policy).ledger;
      && sender in r.accounts && r.accounts[sender].codeHash == l.accounts[sender].codeHash
      && r.accounts[sender].auth == LastAuth(actions, l.accounts[sender].auth)
    decreases |actions|
  {
    if actions != [] {
      var a := actions[0];
      var r := RunAction(env, l, sender, a, ValueFor(pending, a), height, policy);
      PartsPlain(r.trace, RunActions(env, r.ledger, sender, actions[1..], Track(pending, a), height, policy).trace);
      DeploysToStep(env, sender, actions, sender);
      ActionAuth(env, l, sender, a, ValueFor(pending, a), height, policy);
      ActionOk(env, l, sender, a, ValueFor(pending, a), height, policy);
      RunAuth(env, r.ledger, sender, actions[1..], Track(pending, a), height, policy);
    }
  }

  /** After a successful operation its sender has the code it had and the signers it set
      last, or those it had; unless it deployed over its own account. */
  lemma SenderAfter(env: Env, l: Ledger, op: UserOperation, height: nat)
    requires Total(l) <= MAX_U128 && !DeploysTo(env, op.sender, op.actions, op.sender)
    requires ExecuteOp(env, l, op, height).success && NoSystem(ExecuteOp(env, l, op, height).trace)
    ensures var r := ExecuteOp(env, l, op, height).ledger;
      && op.sender in l.accounts && op.sender in r.accounts
      && r.accounts[op.sender].codeHash == l.accounts[op.sender].codeHash
      && r.accounts[op.sender].auth == LastAuth(op.actions, l.accounts[op.sender].auth)
  {
    ValidateWrites(env, l, op, height);
    ReservedTotal(env, l, op, height);
    var p := Validate(env, l, op, height).value;
    var reserved := Reserved(p.ledger, op);
    RunAuth(env, reserved, op.sender, op.actions, map[], height, p.policy);
    SettledIdentity(env, op, height, Reserve(p.ledger, op), p.charge,
                    RunActions(env, reserved, op.sender, op.actions, map[], height, p.policy), op.sender);
  }

  // ---------- The whole trace of an operation ----------

  lemma {:induction false} RunTree(env: Env, l: Ledger, sender: Id, actions: seq<Action>, pending: map<Id, nat>, height: nat,
                                   policy: Option<Policy>)
    ensures Nested(env, RunActions(env, l, sender, actions, pending, height, policy).trace, 0)
    decreases |actions|
  {
    if actions != [] {
      var a := actions[0];
      var r := RunAction(env, l, sender, a, ValueFor(pending, a), height, policy);
      ActionTree(env, l, sender, a, ValueFor(pending, a), height, policy);
      if r.ok {
        RunTree(env, r.ledger, sender, actions[1..], Track(pending, a), height, policy);
        NestedJoin(env, r.trace, RunActions(env, r.ledger, sender, actions[1..], Track(pending, a), height, policy).trace, 0);
      }
    }
  }

  lemma ActionTree(env: Env, l: Ledger, sender: Id, a: Action, msgValue: nat, height: nat, policy: Option<Policy>)
    ensures Nested(env, RunAction(env, l, sender, a, msgValue, height, policy).trace, 0)
  {
    if a.Call? && !IsSystem(a.target) {
      DispatchTree(env, l, Invocation(sender, a.target, a.callMethod, a.args, msgValue), height, 0, MAX_CALL_TREE_FUEL, policy);
    }
  }

  /** Over everything an operation runs, each frame below the top has its caller: the nearest
      frame above it, whose VM queued exactly that call next. */
  lemma OperationTree(env: Env, l: Ledger, op: UserOperation, height: nat)
    ensures Nested(env, ExecuteOp(env, l, op, height).trace, 0)
  {
    if ExecuteOp(env, l, op, height).valid {
      var p := Validate(env, l, op, height).value;
      RunTree(env, Reserved(p.ledger, op), op.sender, op.actions, map[], height, p.policy);
    }
  }
}
