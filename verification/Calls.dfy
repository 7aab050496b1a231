/** Contract calls: one frame, the native transfers it makes and the calls it queues. */
module Calls {
  import opened Types
  import opened Ledger

  // ---------- What lies outside ----------

  datatype FeeConfig = FeeConfig(baseFeePerGas: nat, treasury: Id, burnRateBps: nat)

  datatype VmCall = VmCall(
    codeHash: Hash, code: Bytes, callMethod: Bytes, args: Bytes, caller: Id, self: Id, height: nat,
    storage: map<Bytes, Bytes>, msgValue: nat, selfBalance: nat, fuel: nat)

  datatype Transferral = Transferral(to: Id, amount: nat)

  datatype Queued = Queued(target: Id, callMethod: Bytes, args: Bytes)

  datatype VmResult =
    | VmFailed(gas: nat)
    | VmDone(gas: nat, storage: map<Bytes, Bytes>, transfers: seq<Transferral>, calls: seq<Queued>)

  datatype SystemResult = SystemResult(ledger: Ledger, gas: nat, ok: bool)

  /** The VM, the system contracts, hashing and signatures are left open. */
  datatype Env = Env(
    vm: VmCall -> VmResult,
    systemCall: (Ledger, Id, Id, Bytes, Bytes) -> SystemResult,
    isUtf8: Bytes -> bool,
    manifest: set<Bytes> -> Bytes,
    codeHash: Bytes -> Hash,
    address: (Id, Id, Hash) -> Id,
    validCode: Bytes -> bool,
    authorizes: (AuthMethod, UserOperation, nat) -> bool,
    sessionSigned: (Id, UserOperation) -> bool,
    fees: FeeConfig,
    feeFixHeight: nat)

  /** The VM never burns more gas than the fuel it was given, whether it succeeds or not. */
  ghost predicate VmSound(env: Env) {
    forall c {:trigger env.vm(c)} :: env.vm(c).gas <= c.fuel
  }

  const TRANSFER_GAS: nat := 100
  const ACCOUNT_CREATION_GAS: nat := 25_000
  const CALL_BASE_GAS: nat := 500
  const DEPLOY_BASE_GAS: nat := 1000
  const SET_AUTH_GAS: nat := 200
  const MAX_CALL_DEPTH: nat := 8
  const MAX_FUEL_PER_CALL: nat := 1_000_000
  const MAX_CALL_TREE_FUEL: nat := 64_000_000

  /** The storage key that lists a contract's keys. */
  const MANIFEST_KEY: Bytes := [95, 95, 107, 101, 121, 115, 95, 95]

  /** A session key's allowlist, carried down the call tree. */
  datatype Policy = Policy(targets: seq<Id>, methods: seq<Bytes>)

  predicate Permits(p: Option<Policy>, target: Id, callMethod: Bytes) {
    p.None? || ((p.value.targets == [] || target in p.value.targets)
                && (p.value.methods == [] || callMethod in p.value.methods))
  }

  // ---------- One call tree ----------

  datatype Invocation = Invocation(caller: Id, target: Id, callMethod: Bytes, args: Bytes, msgValue: nat)

  /** One executed frame, in order of execution. `gas` is the VM's share, `input` what the
      VM was handed, if it ran. */
  datatype Frame = Frame(depth: nat, call: Invocation, system: bool, gas: nat, input: Option<VmCall>)

  /** Outcome of a call tree. Failure keeps what was written before it. */
  datatype Exec = Exec(ledger: Ledger, fuel: nat, gas: nat, ok: bool, trace: seq<Frame>)

  function Fail(l: Ledger, fuel: nat, trace: seq<Frame>): Exec { Exec(l, fuel, 0, false, trace) }

  function StorageOf(l: Ledger, id: Id): map<Bytes, Bytes> {
    if id in l.storage then l.storage[id] else map[]
  }

  /** Writes every pair and the key list; keys the VM dropped stay in the store. */
  function SaveStorage(env: Env, l: Ledger, id: Id, s: map<Bytes, Bytes>): Ledger {
    l.(storage := l.storage[id := (StorageOf(l, id) + s)[MANIFEST_KEY := env.manifest(s.Keys)]])
  }

  /** Native transfers out of a contract, stopping at the first it cannot cover. */
  function PayOut(l: Ledger, from: Id, transfers: seq<Transferral>): (Ledger, bool)
    decreases |transfers|
  {
    if transfers == [] then (l, true)
    else
      var t := transfers[0];
      if from !in l.accounts || l.accounts[from].balance < t.amount then (l, false)
      else PayOut(PayOne(l, from, t), from, transfers[1..])
  }

  function PayOne(l: Ledger, from: Id, t: Transferral): Ledger
    requires from in l.accounts && l.accounts[from].balance >= t.amount
  {
    var debited := Put(l, from, l.accounts[from].(balance := l.accounts[from].balance - t.amount));
    Put(debited, t.to,
        if t.to in debited.accounts
        then debited.accounts[t.to].(balance := SatAdd(debited.accounts[t.to].balance, t.amount))
        else Account(NO_CODE, [], 0, t.amount))
  }

  function VmInput(l: Ledger, c: Invocation, height: nat, fuel: nat): VmCall
    requires c.target in l.accounts && l.accounts[c.target].codeHash in l.code
  {
    var a := l.accounts[c.target];
    VmCall(a.codeHash, l.code[a.codeHash], c.callMethod, c.args, c.caller, c.target, height,
           StorageOf(l, c.target), c.msgValue, a.balance, Min(fuel, MAX_FUEL_PER_CALL))
  }

  function DepthLeft(depth: nat): nat { if depth > MAX_CALL_DEPTH then 0 else MAX_CALL_DEPTH + 1 - depth }

  /** `dispatch_contract_call` */
  function Dispatch(env: Env, l: Ledger, c: Invocation, height: nat, depth: nat, fuel: nat, policy: Option<Policy>): Exec
    decreases DepthLeft(depth), 0
  {
    if depth > MAX_CALL_DEPTH then Fail(l, fuel, [])
    else if depth > 0 && !Permits(policy, c.target, c.callMethod) then Fail(l, fuel, [])
    else if IsSystem(c.target) then
      if !env.isUtf8(c.callMethod) then Fail(l, fuel, [])
      else
        var s := env.systemCall(l, c.caller, c.target, c.callMethod, c.args);
        var frame := Frame(depth, c, true, 0, None);
        if s.ok then Exec(s.ledger, fuel, CALL_BASE_GAS + s.gas, true, [frame]) else Fail(s.ledger, fuel, [frame])
    else if c.target !in l.accounts then Fail(l, fuel, [])
    else if l.accounts[c.target].codeHash == NO_CODE then
      Exec(l, fuel, CALL_BASE_GAS, true, [Frame(depth, c, false, 0, None)])
    else if l.accounts[c.target].codeHash !in l.code then Fail(l, fuel, [])
    else if fuel == 0 then Fail(l, fuel, [])
    else
      var input := VmInput(l, c, height, fuel);
      match env.vm(input)
      case VmFailed(gas) => Fail(l, fuel, [Frame(depth, c, false, gas, Some(input))])
      case VmDone(gas, storage, transfers, calls) =>
        var left := if gas <= fuel then fuel - gas else 0;
        var frame := Frame(depth, c, false, gas, Some(input));
        var (paid, covered) := PayOut(SaveStorage(env, l, c.target, storage), c.target, transfers);
        if !covered then Fail(paid, left, [frame])
        else
          var r := DispatchAll(env, paid, c.target, calls, height, depth + 1, left, policy);
          if r.ok then Exec(r.ledger, r.fuel, CALL_BASE_GAS + gas + r.gas, true, [frame] + r.trace)
          else Fail(r.ledger, r.fuel, [frame] + r.trace)
  }

  /** The calls a frame queued, in order, stopping at the first failure. */
  function DispatchAll(env: Env, l: Ledger, caller: Id, calls: seq<Queued>, height: nat, depth: nat, fuel: nat,
                       policy: Option<Policy>): Exec
    decreases DepthLeft(depth), 1, |calls|
  {
    if calls == [] then Exec(l, fuel, 0, true, [])
    else
      var q := calls[0];
      var r := Dispatch(env, l, Invocation(caller, q.target, q.callMethod, q.args, 0), height, depth, fuel, policy);
      if !r.ok then Fail(r.ledger, r.fuel, r.trace)
      else
        var rest := DispatchAll(env, r.ledger, caller, calls[1..], height, depth, r.fuel, policy);
        if rest.ok then Exec(rest.ledger, rest.fuel, r.gas + rest.gas, true, r.trace + rest.trace)
        else Fail(rest.ledger, rest.fuel, r.trace + rest.trace)
  }

  // ---------- What a call tree keeps ----------

  function FuelUsed(trace: seq<Frame>): nat {
    if trace == [] then 0 else trace[0].gas + FuelUsed(trace[1..])
  }

  lemma {:induction false} FuelUsedAppend(a: seq<Frame>, b: seq<Frame>)
    ensures FuelUsed(a + b) == FuelUsed(a) + FuelUsed(b)
  {
    if a == [] {
      assert a + b == b;
    } else {
      assert (a + b)[1..] == a[1..] + b;
      FuelUsedAppend(a[1..], b);
    }
  }

  ghost predicate NoSystem(trace: seq<Frame>) {
    forall i :: 0 <= i < |trace| ==> !trace[i].system
  }

  /** Every frame lies at or below `depth`, at most at the depth limit, and is
      permitted unless it is the top frame. */
  ghost predicate Confined(trace: seq<Frame>, depth: nat, policy: Option<Policy>) {
    forall i :: 0 <= i < |trace| ==>
      && depth <= trace[i].depth <= MAX_CALL_DEPTH
      && (trace[i].depth > 0 ==> Permits(policy, trace[i].call.target, trace[i].call.callMethod))
  }

  /** Without system calls, value is only moved, and existing accounts keep their code,
      authorisation and nonce. */
  ghost predicate Neutral(l: Ledger, r: Exec) {
    r.ok && NoSystem(r.trace) && Total(l) <= MAX_U128 ==>
      && Total(r.ledger) == Total(l) && Stable(l, r.ledger)
      && r.ledger == l.(accounts := r.ledger.accounts, storage := r.ledger.storage)
  }

  /** The contract ran in some frame. */
  ghost predicate Ran(trace: seq<Frame>, id: Id) {
    exists i :: 0 <= i < |trace| && trace[i].call.target == id
  }

  /** An account that loses nothing: no balance, no storage. */
  ghost predicate Untouched(l: Ledger, r: Ledger, id: Id) {
    BalanceOf(r, id) >= BalanceOf(l, id) && StorageOf(r, id) == StorageOf(l, id)
  }

  /** Only contracts that ran spend value or write storage. */
  ghost predicate Isolated(l: Ledger, r: Exec) {
    r.ok && NoSystem(r.trace) && Total(l) <= MAX_U128 ==>
      forall id :: !Ran(r.trace, id) ==> Untouched(l, r.ledger, id)
  }

  /** The fuel of all frames together is what the budget lost. A tree that fails may end
      in a frame whose fuel the budget no longer records; it still fits. */
  ghost predicate Metered(env: Env, fuel: nat, r: Exec) {
    VmSound(env) ==> FuelUsed(r.trace) <= fuel && (r.ok ==> r.fuel + FuelUsed(r.trace) == fuel)
  }

  lemma PayOneNeutral(l: Ledger, from: Id, t: Transferral)
    requires from in l.accounts && l.accounts[from].balance >= t.amount && Total(l) <= MAX_U128
    ensures Total(PayOne(l, from, t)) == Total(l) && Stable(l, PayOne(l, from, t))
  {
    var debited := Put(l, from, l.accounts[from].(balance := l.accounts[from].balance - t.amount));
    TotalPut(l, from, debited.accounts[from]);
    TotalPut(debited, t.to, PayOne(l, from, t).accounts[t.to]);
  }

  lemma {:induction false} PayOutNeutral(l: Ledger, from: Id, transfers: seq<Transferral>)
    requires Total(l) <= MAX_U128
    ensures var (r, _) := PayOut(l, from, transfers);
      Total(r) == Total(l) && Stable(l, r) && r == l.(accounts := r.accounts)
    decreases |transfers|
  {
    if transfers != [] && from in l.accounts && l.accounts[from].balance >= transfers[0].amount {
      var one := PayOne(l, from, transfers[0]);
      PayOneNeutral(l, from, transfers[0]);
      PayOutNeutral(one, from, transfers[1..]);
    }
  }

  /** Everything a call tree keeps. */
  ghost predicate TreeOk(env: Env, l: Ledger, depth: nat, fuel: nat, policy: Option<Policy>, r: Exec) {
    Metered(env, fuel, r) && Confined(r.trace, depth, policy) && Neutral(l, r) && Isolated(l, r)
  }

  /** A frame followed by the calls it queued. */
  lemma FrameThenCalls(env: Env, l: Ledger, paid: Ledger, frame: Frame, depth: nat, fuel: nat, left: nat,
                       policy: Option<Policy>, r: Exec, whole: Exec)
    requires frame.depth == depth <= MAX_CALL_DEPTH
    requires depth > 0 ==> Permits(policy, frame.call.target, frame.call.callMethod)
    requires VmSound(env) ==> left + frame.gas == fuel
    requires TreeOk(env, paid, depth + 1, left, policy, r)
    requires Total(l) <= MAX_U128 ==> Total(paid) == Total(l) && Stable(l, paid)
    requires paid == l.(accounts := paid.accounts, storage := paid.storage)
    requires Total(l) <= MAX_U128 ==> forall id :: id != frame.call.target ==> Untouched(l, paid, id)
    requires whole == r.(gas := whole.gas, trace := [frame] + r.trace)
    ensures TreeOk(env, l, depth, fuel, policy, whole)
  {
    FuelUsedAppend([frame], r.trace);
    assert [frame][1..] == [];
    assert FuelUsed([frame]) == frame.gas + FuelUsed([frame][1..]);
    assert NoSystem(whole.trace) ==> NoSystem(r.trace) by {
      assert forall i :: 0 <= i < |r.trace| ==> whole.trace[i + 1] == r.trace[i];
    }
    FrameIsolated(l, paid, frame, r, whole);
  }

  lemma FrameIsolated(l: Ledger, paid: Ledger, frame: Frame, r: Exec, whole: Exec)
    requires Isolated(paid, r) && whole == r.(gas := whole.gas, trace := [frame] + r.trace)
    requires Total(l) <= MAX_U128 ==> Total(paid) == Total(l)
    requires Total(l) <= MAX_U128 ==> forall id :: id != frame.call.target ==> Untouched(l, paid, id)
    ensures Isolated(l, whole)
  {
    RanAppend([frame], r.trace);
    if whole.ok && NoSystem(whole.trace) && Total(l) <= MAX_U128 {
      assert NoSystem(r.trace) by {
        assert forall i :: 0 <= i < |r.trace| ==> whole.trace[i + 1] == r.trace[i];
      }
      forall id | !Ran(whole.trace, id) ensures Untouched(l, whole.ledger, id) {
        assert whole.trace[0].call.target != id;
        assert Untouched(paid, r.ledger, id) && Untouched(l, paid, id);
      }
    }
  }

  lemma RanAppend(a: seq<Frame>, b: seq<Frame>)
    ensures forall id :: Ran(a + b, id) <==> Ran(a, id) || Ran(b, id)
  {
    forall id ensures Ran(a + b, id) <==> Ran(a, id) || Ran(b, id) {
      if i :| 0 <= i < |a| && a[i].call.target == id { assert (a + b)[i].call.target == id; }
      if i :| 0 <= i < |b| && b[i].call.target == id { assert (a + b)[|a| + i].call.target == id; }
      if i :| 0 <= i < |a + b| && (a + b)[i].call.target == id {
        assert if i < |a| then a[i].call.target == id else b[i - |a|].call.target == id;
      }
    }
  }

  lemma RestIsolated(l: Ledger, r: Exec, rest: Exec, whole: Exec)
    requires r.ok && Isolated(l, r) && Neutral(l, r) && Isolated(r.ledger, rest)
    requires whole == rest.(gas := whole.gas, trace := r.trace + rest.trace)
    requires NoSystem(whole.trace) ==> NoSystem(r.trace) && NoSystem(rest.trace)
    ensures Isolated(l, whole)
  {
    RanAppend(r.trace, rest.trace);
    if whole.ok && NoSystem(whole.trace) && Total(l) <= MAX_U128 {
      forall id | !Ran(whole.trace, id) ensures Untouched(l, whole.ledger, id) {
        assert Untouched(l, r.ledger, id) && Untouched(r.ledger, rest.ledger, id);
      }
    }
  }

  lemma {:induction false} PayOutOthers(l: Ledger, from: Id, transfers: seq<Transferral>, id: Id)
    requires Total(l) <= MAX_U128 && id != from
    ensures BalanceOf(PayOut(l, from, transfers).0, id) >= BalanceOf(l, id)
    decreases |transfers|
  {
    if transfers != [] && from in l.accounts && l.accounts[from].balance >= transfers[0].amount {
      var one := PayOne(l, from, transfers[0]);
      PayOneNeutral(l, from, transfers[0]);
      if id in l.accounts { TotalPut(l, id, l.accounts[id]); }
      PayOutOthers(one, from, transfers[1..], id);
    }
  }

  lemma CallThenRest(env: Env, l: Ledger, depth: nat, fuel: nat, policy: Option<Policy>, r: Exec, rest: Exec, whole: Exec)
    requires TreeOk(env, l, depth, fuel, policy, r) && r.ok
    requires TreeOk(env, r.ledger, depth, r.fuel, policy, rest)
    requires whole == rest.(gas := whole.gas, trace := r.trace + rest.trace)
    ensures TreeOk(env, l, depth, fuel, policy, whole)
  {
    FuelUsedAppend(r.trace, rest.trace);
    assert NoSystem(whole.trace) ==> NoSystem(r.trace) && NoSystem(rest.trace) by {
      assert forall i :: 0 <= i < |r.trace| ==> whole.trace[i] == r.trace[i];
      assert forall i :: 0 <= i < |rest.trace| ==> whole.trace[|r.trace| + i] == rest.trace[i];
    }
    RestIsolated(l, r, rest, whole);
  }

  lemma SingleFrame(env: Env, l: Ledger, depth: nat, fuel: nat, policy: Option<Policy>, r: Exec)
    requires |r.trace| <= 1 && Metered(env, fuel, r) && Confined(r.trace, depth, policy)
    requires !r.ok || r.ledger == l || !NoSystem(r.trace)
    ensures TreeOk(env, l, depth, fuel, policy, r)
  {
  }

  predicate RunsCode(l: Ledger, c: Invocation, depth: nat, fuel: nat, policy: Option<Policy>) {
    && depth <= MAX_CALL_DEPTH && (depth > 0 ==> Permits(policy, c.target, c.callMethod))
    && !IsSystem(c.target) && c.target in l.accounts && l.accounts[c.target].codeHash != NO_CODE
    && l.accounts[c.target].codeHash in l.code && fuel > 0
  }

  /** The ledger after a frame's storage and native transfers. */
  lemma SettledNeutral(env: Env, l: Ledger, self: Id, storage: map<Bytes, Bytes>, transfers: seq<Transferral>)
    ensures var paid := PayOut(SaveStorage(env, l, self, storage), self, transfers).0;
      && (Total(l) <= MAX_U128 ==> Total(paid) == Total(l) && Stable(l, paid))
      && paid == l.(accounts := paid.accounts, storage := paid.storage)
      && (Total(l) <= MAX_U128 ==> forall id :: id != self ==> Untouched(l, paid, id))
  {
    var saved := SaveStorage(env, l, self, storage);
    TotalOf(l, saved);
    PayOutFrame(saved, self, transfers);
    if Total(l) <= MAX_U128 {
      PayOutNeutral(saved, self, transfers);
      forall id | id != self ensures Untouched(l, PayOut(saved, self, transfers).0, id) {
        PayOutOthers(saved, self, transfers, id);
      }
    }
  }

  /** For every VM: the frames' fuel fits the shared budget and is exactly what a
      successful tree took from it, every frame below the top is on the allowlist, and without system calls the tree only
      moves value. */
  lemma {:induction false} DispatchOk(env: Env, l: Ledger, c: Invocation, height: nat, depth: nat, fuel: nat,
                                      policy: Option<Policy>)
    ensures TreeOk(env, l, depth, fuel, policy, Dispatch(env, l, c, height, depth, fuel, policy))
    decreases DepthLeft(depth), 0
  {
    var whole := Dispatch(env, l, c, height, depth, fuel, policy);
    if RunsCode(l, c, depth, fuel, policy) && env.vm(VmInput(l, c, height, fuel)).VmDone? {
      var v := env.vm(VmInput(l, c, height, fuel));
      var (paid, covered) := PayOut(SaveStorage(env, l, c.target, v.storage), c.target, v.transfers);
      var left := if v.gas <= fuel then fuel - v.gas else 0;
      if covered {
        SettledNeutral(env, l, c.target, v.storage, v.transfers);
        DispatchAllOk(env, paid, c.target, v.calls, height, depth + 1, left, policy);
        FrameThenCalls(env, l, paid, Frame(depth, c, false, v.gas, Some(VmInput(l, c, height, fuel))), depth, fuel, left, policy,
                       DispatchAll(env, paid, c.target, v.calls, height, depth + 1, left, policy), whole);
      } else {
        SingleFrame(env, l, depth, fuel, policy, whole);
      }
    } else {
      SingleFrame(env, l, depth, fuel, policy, whole);
    }
  }

  lemma {:induction false} PayOutFrame(l: Ledger, from: Id, transfers: seq<Transferral>)
    ensures var r := PayOut(l, from, transfers).0; r == l.(accounts := r.accounts)
    decreases |transfers|
  {
    if transfers != [] && from in l.accounts && l.accounts[from].balance >= transfers[0].amount {
      PayOutFrame(PayOne(l, from, transfers[0]), from, transfers[1..]);
    }
  }

  lemma {:induction false} DispatchAllOk(env: Env, l: Ledger, caller: Id, calls: seq<Queued>, height: nat, depth: nat,
                                         fuel: nat, policy: Option<Policy>)
    ensures TreeOk(env, l, depth, fuel, policy, DispatchAll(env, l, caller, calls, height, depth, fuel, policy))
    decreases DepthLeft(depth), 1, |calls|
  {
    if calls != [] {
      var q := calls[0];
      var c := Invocation(caller, q.target, q.callMethod, q.args, 0);
      var r := Dispatch(env, l, c, height, depth, fuel, policy);
      DispatchOk(env, l, c, height, depth, fuel, policy);
      if r.ok {
        DispatchAllOk(env, r.ledger, caller, calls[1..], height, depth, r.fuel, policy);
        CallThenRest(env, l, depth, fuel, policy, r,
                     DispatchAll(env, r.ledger, caller, calls[1..], height, depth, r.fuel, policy),
                     DispatchAll(env, l, caller, calls, height, depth, fuel, policy));
      }
    }
  }

  /** A top-level call burns at most 64,000,000 fuel over its whole tree. */
  lemma TreeFuelBound(env: Env, l: Ledger, c: Invocation, height: nat, policy: Option<Policy>)
    requires VmSound(env)
    ensures FuelUsed(Dispatch(env, l, c, height, 0, MAX_CALL_TREE_FUEL, policy).trace) <= 64_000_000
  {
    DispatchOk(env, l, c, height, 0, MAX_CALL_TREE_FUEL, policy);
  }
}
