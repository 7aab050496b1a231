/** Executing one user operation: validation, fee reserve, actions, rollback or
    settlement. */
module Operations {
  import opened Types
  import opened Ledger
  import opened Calls

  const MAX_ACTIONS_PER_OP: nat := 16
  const MAX_CODE_SIZE: nat := 4_194_304

  // Method names as ASCII bytes.
  const FULFILL: Bytes := [102, 117, 108, 102, 105, 108, 108]
  const SLASH: Bytes := [115, 108, 97, 115, 104]
  const PROPOSE: Bytes := [112, 114, 111, 112, 111, 115, 101]
  const FINALIZE: Bytes := [102, 105, 110, 97, 108, 105, 122, 101]
  const EXECUTE: Bytes := [101, 120, 101, 99, 117, 116, 101]

  /** Injected by the block proposer: skips signature, session and nonce checks. */
  predicate SystemAuthorized(op: UserOperation) {
    && op.signature == SYSTEM_SIGNATURE && |op.actions| == 1 && op.actions[0].Call?
    && IsSystem(op.actions[0].target) && (op.actions[0].callMethod == FULFILL || op.actions[0].callMethod == SLASH)
  }

  predicate WellFormed(env: Env, op: UserOperation) {
    && |op.actions| <= MAX_ACTIONS_PER_OP
    && forall i :: 0 <= i < |op.actions| && op.actions[i].Deploy? ==>
         |op.actions[i].code| <= MAX_CODE_SIZE && env.validCode(op.actions[i].code)
  }

  // ---------- Validation ----------

  predicate Signed(env: Env, auth: seq<AuthMethod>, op: UserOperation, height: nat) {
    exists i :: 0 <= i < |auth| && env.authorizes(auth[i], op, height)
  }

  /** The first session key on the account that verifies the signature. */
  function SessionFor(env: Env, auth: seq<AuthMethod>, op: UserOperation): (s: Option<AuthMethod>)
    ensures s.None? ==> forall j :: 0 <= j < |auth| ==> !SignedBySession(env, auth[j], op)
    ensures s.Some? ==> exists i :: && 0 <= i < |auth| && auth[i] == s.value && SignedBySession(env, auth[i], op)
                                    && forall j :: 0 <= j < i ==> !SignedBySession(env, auth[j], op)
  {
    if auth == [] then None
    else if SignedBySession(env, auth[0], op) then Some(auth[0])
    else
      var rest := SessionFor(env, auth[1..], op);
      assert forall j :: 0 < j < |auth| ==> auth[j] == auth[1..][j - 1];
      if rest.None? then rest
      else
        ghost var i :| 0 <= i < |auth[1..]| && auth[1..][i] == rest.value
                       && forall j :: 0 <= j < i ==> !SignedBySession(env, auth[1..][j], op);
        assert auth[i + 1] == rest.value;
        rest
  }

  predicate SignedBySession(env: Env, m: AuthMethod, op: UserOperation) {
    m.Session? && env.sessionSigned(m.sessionKey, op)
  }

  function LittleEndian(bytes: Bytes): nat {
    if bytes == [] then 0 else bytes[0] + 256 * LittleEndian(bytes[1..])
  }

  /** What an action counts against a session's limits. */
  function SpendOf(a: Action): nat {
    match a
    case Transfer(_, amount) => amount
    case Call(target, _, args) =>
      if IsSystem(target) && |args| >= 48 then
        var offset := if target == BRIDGE_ADDRESS then 8 else 32;
        LittleEndian(args[offset..offset + 16])
      else 0
    case _ => 0
  }

  function Spend(actions: seq<Action>): nat {
    if actions == [] then 0 else SpendOf(actions[0]) + Spend(actions[1..])
  }

  predicate TargetAllowed(s: AuthMethod, a: Action)
    requires s.Session?
  {
    s.allowedTargets == [] || match a
      case Call(target, _, _) => target in s.allowedTargets
      case Transfer(to, _) => to in s.allowedTargets
      case _ => true
  }

  predicate Privileged(a: Action) {
    match a
    case SetAuth(_) => true
    case Deploy(_, _) => true
    case Call(target, callMethod, _) =>
      || target == GUARDIAN_ADDRESS
      || (target == GOVERNANCE_ADDRESS && (PROPOSE <= callMethod || callMethod == FINALIZE || callMethod == EXECUTE))
    case Transfer(_, _) => false
  }

  predicate MethodAllowed(s: AuthMethod, a: Action)
    requires s.Session?
  {
    s.allowedMethods == [] || !a.Call? || a.callMethod in s.allowedMethods
  }

  function SpentBy(l: Ledger, owner: Id, key: Id): nat {
    if (owner, key) in l.spent then l.spent[(owner, key)] else 0
  }

  predicate SessionAllows(l: Ledger, op: UserOperation, s: AuthMethod)
    requires s.Session?
  {
    var spend := Spend(op.actions);
    && l.tipHeight <= s.expiresAt
    && (s.spendingLimit > 0 ==> spend <= s.spendingLimit)
    && (s.budgetTotal > 0 ==> SatAdd(SpentBy(l, op.sender, s.sessionKey), spend) <= s.budgetTotal)
    && forall i :: 0 <= i < |op.actions| ==>
         TargetAllowed(s, op.actions[i]) && !Privileged(op.actions[i]) && MethodAllowed(s, op.actions[i])
  }

  /** The allowlist a session asks to have enforced on sub-calls as well. */
  function PolicyOf(s: AuthMethod): Option<Policy>
    requires s.Session?
  {
    if s.restrictSubcalls && (s.allowedTargets != [] || s.allowedMethods != [])
    then Some(Policy(s.allowedTargets, s.allowedMethods)) else None
  }

  /** The new running total to store if the operation succeeds. */
  function ChargeOf(l: Ledger, op: UserOperation, s: AuthMethod): Charge
    requires s.Session?
  {
    if s.budgetTotal > 0 && Spend(op.actions) > 0
    then Some(((op.sender, s.sessionKey), SatAdd(SpentBy(l, op.sender, s.sessionKey), Spend(op.actions)))) else None
  }

  /** A session's new running total, to be stored on success. */
  type Charge = Option<((Id, Id), nat)>

  datatype Prepared = Prepared(ledger: Ledger, charge: Charge, policy: Option<Policy>)

  /** `validate_and_prepare`: nothing is written unless every check passes. */
  function Validate(env: Env, l: Ledger, op: UserOperation, height: nat): Option<Prepared> {
    if op.sender !in l.accounts then None
    else if SystemAuthorized(op) then Some(Prepared(l, None, None))
    else
      var auth := l.accounts[op.sender].auth;
      if !Signed(env, auth, op, height) then None
      else
        var session := SessionFor(env, auth, op);
        if session.Some? && !SessionAllows(l, op, session.value) then None
        else
          var (l', ok) := ConsumeNonce(l, op.sender, op.nonce);
          if !ok then None
          else if session.None? then Some(Prepared(l', None, None))
          else Some(Prepared(l', ChargeOf(l, op, session.value), PolicyOf(session.value)))
  }

  // ---------- Actions ----------

  /** Outcome of a run of actions. `lost` is the sum of the balances that deployments
      replaced. */
  datatype Progress = Progress(
    ledger: Ledger, gas: nat, ok: bool, trace: seq<Frame>, lost: nat)

  function Stopped(l: Ledger, gas: nat, trace: seq<Frame>): Progress { Progress(l, gas, false, trace, 0) }

  predicate AuthValid(l: Ledger, m: AuthMethod) {
    match m
    case Threshold(signers, threshold) => 0 < threshold <= |signers|
    case Guardian(guardianId) => guardianId in l.accounts
    case _ => true
  }

  function DeployTo(env: Env, l: Ledger, sender: Id, code: Bytes, salt: Id): Progress {
    if |code| > MAX_CODE_SIZE then Stopped(l, 0, [])
    else
      var h := env.codeHash(code);
      var stored := l.(code := l.code[h := code]);
      var id := env.address(sender, salt, h);
      if id in l.accounts && l.accounts[id].codeHash != NO_CODE then Stopped(stored, 0, [])
      else
        var auth := if sender in l.accounts then l.accounts[sender].auth else [];
        Progress(Put(stored, id, Account(h, auth, 0, 0)), DEPLOY_BASE_GAS, true, [], BalanceOf(l, id))
  }

  /** One action: system calls go straight to the store, the rest to `execute_action`. */
  function RunAction(env: Env, l: Ledger, sender: Id, a: Action, msgValue: nat, height: nat, policy: Option<Policy>): Progress {
    match a
    case Transfer(to, amount) =>
      var (l', ok) := TransferTo(l, sender, to, amount);
      if !ok then Stopped(l', 0, [])
      else Progress(l', if to in l.accounts then TRANSFER_GAS else TRANSFER_GAS + ACCOUNT_CREATION_GAS, true, [], 0)
    case Call(target, callMethod, args) =>
      var c := Invocation(sender, target, callMethod, args, msgValue);
      if IsSystem(target) then
        var s := env.systemCall(l, sender, target, callMethod, args);
        Progress(s.ledger, s.gas, s.ok, [Frame(0, c, true, 0, None)], 0)
      else
        var r := Dispatch(env, l, c, height, 0, MAX_CALL_TREE_FUEL, policy);
        if r.ok then Progress(r.ledger, r.gas, true, r.trace, 0) else Stopped(r.ledger, 0, r.trace)
    case SetAuth(auth) =>
      if auth == [] || (exists i :: 0 <= i < |auth| && !AuthValid(l, auth[i])) || sender !in l.accounts
      then Stopped(l, 0, [])
      else Progress(Put(l, sender, l.accounts[sender].(auth := auth)), SET_AUTH_GAS, true, [], 0)
    case Deploy(code, salt) => DeployTo(env, l, sender, code, salt)
  }

  /** Native value sent to each target since it was last called. */
  function ValueFor(pending: map<Id, nat>, a: Action): nat {
    if a.Call? && a.target in pending then pending[a.target] else 0
  }

  function Track(pending: map<Id, nat>, a: Action): map<Id, nat> {
    match a
    case Transfer(to, amount) => pending[to := SatAdd(if to in pending then pending[to] else 0, amount)]
    case Call(target, _, _) => pending - {target}
    case _ => pending
  }

  function Combine(r: Progress, rest: Progress): Progress {
    Progress(rest.ledger, r.gas + rest.gas, rest.ok, r.trace + rest.trace, r.lost + rest.lost)
  }

  function RunActions(env: Env, l: Ledger, sender: Id, actions: seq<Action>, pending: map<Id, nat>, height: nat,
                      policy: Option<Policy>): Progress
    decreases |actions|
  {
    if actions == [] then Progress(l, 0, true, [], 0)
    else
      var r := RunAction(env, l, sender, actions[0], ValueFor(pending, actions[0]), height, policy);
      if !r.ok then r
      else Combine(r, RunActions(env, r.ledger, sender, actions[1..], Track(pending, actions[0]), height, policy))
  }

  // ---------- Fees ----------

  function FeeFor(fees: FeeConfig, gas: nat, maxFee: nat, fix: bool): nat {
    var f := SatMul(fees.baseFeePerGas, gas);
    if fix then Min(f, maxFee) else f
  }

  /** The share that is not burned; the subtraction wraps in 64 bits. */
  function TreasuryShare(fee: nat, burn: nat): nat {
    SatMul(fee, if burn <= 10_000 then 10_000 - burn else (MAX_U64 + 10_001) - Min(burn, MAX_U64)) / 10_000
  }

  function BurnRate(env: Env, l: Ledger): nat {
    if l.burnRate.Some? then l.burnRate.value else env.fees.burnRateBps
  }

  // ---------- The operation ----------

  /** `valid`: it passed validation. `fee` is what the sender really paid, `credit`
      what the treasury received. */
  datatype OpResult = OpResult(
    ledger: Ledger, valid: bool, success: bool, gas: nat, fee: nat, credit: nat,
    trace: seq<Frame>, lost: nat)

  function Rejected(l: Ledger): OpResult { OpResult(l, false, false, 0, 0, 0, [], 0) }

  function Reserve(l: Ledger, op: UserOperation): nat { Min(op.maxFee, BalanceOf(l, op.sender)) }

  function Reserved(l: Ledger, op: UserOperation): Ledger {
    if op.sender in l.accounts
    then Put(l, op.sender, l.accounts[op.sender].(balance := l.accounts[op.sender].balance - Reserve(l, op)))
    else l
  }

  /** Failure: back to the savepoint after validation, the nonce taken, gas charged. */
  function RollBack(env: Env, saved: Ledger, op: UserOperation, height: nat, run: Progress): OpResult {
    var l := ConsumeNonce(saved, op.sender, op.nonce).0;
    var due := FeeFor(env.fees, run.gas, op.maxFee, height >= env.feeFixHeight);
    var fee := Min(due, BalanceOf(l, op.sender));
    var charged := if due > 0 && op.sender in l.accounts
                   then Put(l, op.sender, l.accounts[op.sender].(balance := SatSub(l.accounts[op.sender].balance, due)))
                   else l;
    OpResult(charged, true, false, run.gas, fee, 0, run.trace, 0)
  }

  function CreditTreasury(env: Env, l: Ledger, share: nat): Ledger {
    var t := env.fees.treasury;
    if share > 0 && t in l.accounts
    then Put(l, t, l.accounts[t].(balance := SatAdd(l.accounts[t].balance, share))) else l
  }

  /** Success: the reserve comes back, the fee is paid and split, the session charged. */
  function Settle(env: Env, op: UserOperation, height: nat, reserve: nat, charge: Charge, run: Progress): OpResult
    requires run.ok
  {
    var l := run.ledger;
    var fix := height >= env.feeFixHeight;
    var due := FeeFor(env.fees, run.gas, op.maxFee, fix);
    var settles := (reserve > 0 || due > 0) && op.sender in l.accounts;
    var available := SatAdd(BalanceOf(l, op.sender), reserve);
    var paid := if fix then Min(due, available) else due;
    var share := TreasuryShare(paid, BurnRate(env, l));
    var debited := if settles then Put(l, op.sender, l.accounts[op.sender].(balance := SatSub(available, paid))) else l;
    var credited := if settles then CreditTreasury(env, debited, share) else debited;
    var ledger := if charge.Some? then credited.(spent := credited.spent[charge.value.0 := charge.value.1]) else credited;
    OpResult(ledger, true, true, run.gas, if settles then Min(paid, available) else 0,
             if settles && env.fees.treasury in debited.accounts then share else 0, run.trace, run.lost)
  }

  /** `execute_operation` */
  function ExecuteOp(env: Env, l: Ledger, op: UserOperation, height: nat): OpResult {
    if !WellFormed(env, op) then Rejected(l)
    else
      match Validate(env, l, op, height)
      case None => Rejected(l)
      case Some(p) =>
        var run := RunActions(env, Reserved(p.ledger, op), op.sender, op.actions, map[], height, p.policy);
        if run.ok then Settle(env, op, height, Reserve(p.ledger, op), p.charge, run)
        else RollBack(env, p.ledger, op, height, run)
  }
}
