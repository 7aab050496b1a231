/** What a frame does: the value it sends, the storage it leaves, the gas it costs, and what
    its VM was handed. */
module CallEffects {
  import opened Types
  import opened Ledger
  import opened Calls
  import opened CallTree

  // ---------- Native transfers ----------

  function Sent(ts: seq<Transferral>): nat { if ts == [] then 0 else ts[0].amount + Sent(ts[1..]) }

  function SentTo(ts: seq<Transferral>, id: Id): nat {
    if ts == [] then 0 else (if ts[0].to == id then ts[0].amount else 0) + SentTo(ts[1..], id)
  }

  lemma PayOneExact(l: Ledger, from: Id, t: Transferral, id: Id)
    requires from in l.accounts && l.accounts[from].balance >= t.amount && Total(l) <= MAX_U128
    ensures BalanceOf(PayOne(l, from, t), id) + (if id == from then t.amount else 0)
            == BalanceOf(l, id) + if id == t.to then t.amount else 0
  {
    var debited := Put(l, from, l.accounts[from].(balance := l.accounts[from].balance - t.amount));
    TotalPut(l, from, debited.accounts[from]);
    if t.to in debited.accounts { TotalPut(debited, t.to, debited.accounts[t.to]); }
  }

  /** A payout that is covered moves exactly what was asked: everyone gains what was sent to
      them and the contract loses the sum. */
  lemma {:induction false} PayOutExact(l: Ledger, from: Id, ts: seq<Transferral>, id: Id)
    requires Total(l) <= MAX_U128 && PayOut(l, from, ts).1
    ensures BalanceOf(PayOut(l, from, ts).0, id) + (if id == from then Sent(ts) else 0) == BalanceOf(l, id) + SentTo(ts, id)
    decreases |ts|
  {
    if ts != [] {
      PayOneExact(l, from, ts[0], id);
      PayOneNeutral(l, from, ts[0]);
      PayOutExact(PayOne(l, from, ts[0]), from, ts[1..], id);
    }
  }

  /** The contract could pay each transfer in turn, counting what it sent to itself. */
  ghost predicate Affordable(ts: seq<Transferral>, from: Id, balance: nat) {
    forall k :: 0 <= k < |ts| ==> Sent(ts[..k + 1]) <= balance + SentTo(ts[..k], from)
  }

  lemma AffordableStep(ts: seq<Transferral>, from: Id, balance: nat)
    requires ts != []
    ensures Affordable(ts, from, balance) <==>
            && ts[0].amount <= balance
            && Affordable(ts[1..], from, balance - ts[0].amount + if ts[0].to == from then ts[0].amount else 0)
  {
    var rest, left := ts[1..], balance - ts[0].amount + if ts[0].to == from then ts[0].amount else 0;
    assert ts[..0] == [];
    if ts[0].amount <= balance && Affordable(rest, from, left) {
      forall k | 0 <= k < |ts| ensures Sent(ts[..k + 1]) <= balance + SentTo(ts[..k], from) {
        PrefixSum(ts, from, k);
        if k > 0 { assert Sent(rest[..k]) <= left + SentTo(rest[..k - 1], from); }
      }
    }
    if Affordable(ts, from, balance) {
      assert Sent(ts[..1]) <= balance + SentTo(ts[..0], from);
      PrefixSum(ts, from, 0);
      forall k | 0 <= k < |rest| ensures Sent(rest[..k + 1]) <= left + SentTo(rest[..k], from) {
        PrefixSum(ts, from, k + 1);
        assert Sent(ts[..k + 2]) <= balance + SentTo(ts[..k + 1], from);
      }
    }
  }

  lemma PrefixSum(ts: seq<Transferral>, from: Id, k: nat)
    requires k < |ts|
    ensures Sent(ts[..k + 1]) == ts[0].amount + Sent(ts[1..][..k])
    ensures k > 0 ==>
      SentTo(ts[..k], from) == (if ts[0].to == from then ts[0].amount else 0) + SentTo(ts[1..][..k - 1], from)
  {
    assert ts[..k + 1][1..] == ts[1..][..k];
    if k > 0 { assert ts[..k][1..] == ts[1..][..k - 1]; }
  }

  /** A payout is covered exactly if there is nothing to pay, or the contract has an account
      that affords every transfer in turn. */
  lemma {:induction false} PayOutIff(l: Ledger, from: Id, ts: seq<Transferral>)
    requires Total(l) <= MAX_U128
    ensures PayOut(l, from, ts).1 <==> ts == [] || (from in l.accounts && Affordable(ts, from, BalanceOf(l, from)))
    decreases |ts|
  {
    if ts != [] && from in l.accounts {
      AffordableStep(ts, from, BalanceOf(l, from));
      if ts[0].amount <= BalanceOf(l, from) {
        PayOneExact(l, from, ts[0], from);
        PayOneNeutral(l, from, ts[0]);
        PayOutIff(PayOne(l, from, ts[0]), from, ts[1..]);
      }
    }
  }

  /** Accounts that a payout creates have no code and nobody who may sign for them. */
  lemma {:induction false} PayOutCreates(l: Ledger, from: Id, ts: seq<Transferral>, id: Id)
    requires var r := PayOut(l, from, ts).0;
      id in r.accounts && (id in l.accounts ==> l.accounts[id] == Account(NO_CODE, [], 0, l.accounts[id].balance))
    ensures var a := PayOut(l, from, ts).0.accounts[id]; a == Account(NO_CODE, [], 0, a.balance)
    decreases |ts|
  {
    if ts != [] && from in l.accounts && l.accounts[from].balance >= ts[0].amount {
      PayOutCreates(PayOne(l, from, ts[0]), from, ts[1..], id);
    }
  }

  // ---------- One frame ----------

  /** What storage a frame leaves its contract: every pair the VM returned, every other key
      as it was, and the list of the returned keys. */
  ghost predicate StoragePut(env: Env, before: map<Bytes, Bytes>, returned: map<Bytes, Bytes>, after: map<Bytes, Bytes>) {
    && after.Keys == before.Keys + returned.Keys + {MANIFEST_KEY}
    && after[MANIFEST_KEY] == env.manifest(returned.Keys)
    && (forall k :: k in returned && k != MANIFEST_KEY ==> after[k] == returned[k])
    && (forall k :: k in before && k !in returned && k != MANIFEST_KEY ==> after[k] == before[k])
  }

  lemma SettlesStorage(env: Env, l: Ledger, self: Id, v: VmResult)
    requires v.VmDone?
    ensures var r := Settles(env, l, self, v).0;
      && StoragePut(env, StorageOf(l, self), v.storage, StorageOf(r, self))
      && forall id :: id != self ==> StorageOf(r, id) == StorageOf(l, id)
  {
    PayOutFrame(SaveStorage(env, l, self, v.storage), self, v.transfers);
  }

  /** A frame that queues nothing, for every VM: it succeeds if and only if its transfers
      are affordable; then its storage holds what the VM returned, value has moved exactly as
      asked, and it costs 500 gas and its fuel. */
  lemma LeafCall(env: Env, l: Ledger, c: Invocation, height: nat, depth: nat, fuel: nat, policy: Option<Policy>)
    requires RunsCode(l, c, depth, fuel, policy) && Total(l) <= MAX_U128
    requires var v := env.vm(VmInput(l, c, height, fuel)); v.VmDone? && v.calls == []
    ensures var v, r := env.vm(VmInput(l, c, height, fuel)), Dispatch(env, l, c, height, depth, fuel, policy);
      && (r.ok <==> Affordable(v.transfers, c.target, BalanceOf(l, c.target)))
      && (r.ok ==>
            && r.gas == 500 + v.gas && r.fuel == (if v.gas <= fuel then fuel - v.gas else 0)
            && StoragePut(env, StorageOf(l, c.target), v.storage, StorageOf(r.ledger, c.target))
            && forall id :: BalanceOf(r.ledger, id) + (if id == c.target then Sent(v.transfers) else 0)
                            == BalanceOf(l, id) + SentTo(v.transfers, id))
  {
    var v := env.vm(VmInput(l, c, height, fuel));
    var saved := SaveStorage(env, l, c.target, v.storage);
    TotalOf(l, saved);
    PayOutIff(saved, c.target, v.transfers);
    SettlesStorage(env, l, c.target, v);
    if Settles(env, l, c.target, v).1 {
      SpawningCall(env, l, c, height, depth, fuel, policy);
      forall id ensures BalanceOf(Settles(env, l, c.target, v).0, id) + (if id == c.target then Sent(v.transfers) else 0)
                        == BalanceOf(l, id) + SentTo(v.transfers, id)
      {
        PayOutExact(saved, c.target, v.transfers, id);
      }
    }
  }

  // ---------- Every frame ----------

  /** The VM was handed this call at this height, with at most a million units of fuel, and
      the frame's gas is what it burned; a frame without a VM run burned nothing. */
  predicate InputOk(env: Env, height: nat, f: Frame) {
    match f.input
    case None => f.gas == 0
    case Some(v) =>
      && v.caller == f.call.caller && v.self == f.call.target && v.callMethod == f.call.callMethod
      && v.args == f.call.args && v.msgValue == f.call.msgValue && v.height == height
      && v.fuel <= 1_000_000 && f.gas == env.vm(v).gas
  }

  /** On success without system calls, a tree costs 500 gas a frame and the fuel of all. */
  ghost predicate Costed(env: Env, height: nat, r: Exec) {
    && (forall i :: 0 <= i < |r.trace| ==> InputOk(env, height, r.trace[i]))
    && (r.ok && NoSystem(r.trace) ==> r.gas == 500 * |r.trace| + FuelUsed(r.trace))
  }

  lemma CostUnder(env: Env, height: nat, f: Frame, below: Exec, whole: Exec)
    requires InputOk(env, height, f) && Costed(env, height, below) && whole.ok == below.ok
    requires whole.trace == [f] + below.trace && (whole.ok ==> whole.gas == 500 + f.gas + below.gas)
    ensures Costed(env, height, whole)
  {
    FuelUsedAppend([f], below.trace);
    assert [f][1..] == [];
    assert FuelUsed([f]) == f.gas + FuelUsed([f][1..]);
    assert forall i :: 0 <= i < |below.trace| ==> whole.trace[i + 1] == below.trace[i];
    assert forall i :: 0 < i < |whole.trace| ==> whole.trace[i] == below.trace[i - 1];
  }

  lemma CostJoin(env: Env, height: nat, r: Exec, rest: Exec, whole: Exec)
    requires Costed(env, height, r) && Costed(env, height, rest) && r.ok && whole.ok == rest.ok
    requires whole.trace == r.trace + rest.trace && (whole.ok ==> whole.gas == r.gas + rest.gas)
    ensures Costed(env, height, whole)
  {
    FuelUsedAppend(r.trace, rest.trace);
    assert forall i :: 0 <= i < |r.trace| ==> whole.trace[i] == r.trace[i];
    assert forall i :: 0 <= i < |rest.trace| ==> whole.trace[|r.trace| + i] == rest.trace[i];
    assert forall i :: |r.trace| <= i < |whole.trace| ==> whole.trace[i] == rest.trace[i - |r.trace|];
  }

  lemma LoneCost(env: Env, l: Ledger, c: Invocation, height: nat, depth: nat, fuel: nat, policy: Option<Policy>)
    requires !Spawning(env, l, c, height, depth, fuel, policy)
    ensures Costed(env, height, Dispatch(env, l, c, height, depth, fuel, policy))
  {
  }

  /** For every VM: what each VM run was handed, and what a tree costs. */
  lemma {:induction false} DispatchCosts(env: Env, l: Ledger, c: Invocation, height: nat, depth: nat, fuel: nat,
                                         policy: Option<Policy>)
    ensures Costed(env, height, Dispatch(env, l, c, height, depth, fuel, policy))
    decreases DepthLeft(depth), 0
  {
    if Spawning(env, l, c, height, depth, fuel, policy) {
      var input := VmInput(l, c, height, fuel);
      var v := env.vm(input);
      DispatchAllCosts(env, Settles(env, l, c.target, v).0, c.target, v.calls, height, depth + 1,
                       if v.gas <= fuel then fuel - v.gas else 0, policy);
      SpawningCall(env, l, c, height, depth, fuel, policy);
      CostUnder(env, height, Frame(depth, c, false, v.gas, Some(input)), Below(env, l, c, height, depth, fuel, policy),
                Dispatch(env, l, c, height, depth, fuel, policy));
    } else {
      LoneCost(env, l, c, height, depth, fuel, policy);
    }
  }

  lemma {:induction false} DispatchAllCosts(env: Env, l: Ledger, caller: Id, queue: seq<Queued>, height: nat, depth: nat,
                                            fuel: nat, policy: Option<Policy>)
    ensures Costed(env, height, DispatchAll(env, l, caller, queue, height, depth, fuel, policy))
    decreases DepthLeft(depth), 1, |queue|
  {
    if queue != [] {
      var q := queue[0];
      var c := Invocation(caller, q.target, q.callMethod, q.args, 0);
      var r := Dispatch(env, l, c, height, depth, fuel, policy);
      DispatchCosts(env, l, c, height, depth, fuel, policy);
      if r.ok {
        DispatchAllCosts(env, r.ledger, caller, queue[1..], height, depth, r.fuel, policy);
        CostJoin(env, height, r, DispatchAll(env, r.ledger, caller, queue[1..], height, depth, r.fuel, policy),
                 DispatchAll(env, l, caller, queue, height, depth, fuel, policy));
      }
    }
  }

  // ---------- Which calls run, and on what ----------

  /** At most eight levels down, and on the allowlist below the top. */
  predicate Reachable(c: Invocation, depth: nat, policy: Option<Policy>) {
    depth <= 8 && (depth > 0 ==> Permits(policy, c.target, c.callMethod))
  }

  predicate HasCode(l: Ledger, id: Id) { id in l.accounts && l.accounts[id].codeHash != 0 }

  /** A call to a contract hands its VM the code, storage and balance that the ledger has at
      that moment; it cannot run without stored code or without fuel. */
  lemma ContractCall(env: Env, l: Ledger, c: Invocation, height: nat, depth: nat, fuel: nat, policy: Option<Policy>)
    requires !IsSystem(c.target) && HasCode(l, c.target)
    ensures var a, r := l.accounts[c.target], Dispatch(env, l, c, height, depth, fuel, policy);
      if Reachable(c, depth, policy) && a.codeHash in l.code && fuel > 0
      then
        && r.trace != [] && r.trace[0].input.Some?
        && var v := r.trace[0].input.value;
           && v.codeHash == a.codeHash && v.code == l.code[a.codeHash] && v.selfBalance == a.balance
           && v.storage == StorageOf(l, c.target) && v.fuel == Min(fuel, 1_000_000)
           && (env.vm(v).VmFailed? ==> r == Exec(l, fuel, 0, false, [r.trace[0]]))
      else r == Exec(l, fuel, 0, false, [])
  {
    if RunsCode(l, c, depth, fuel, policy) && Spawning(env, l, c, height, depth, fuel, policy) {
      SpawningCall(env, l, c, height, depth, fuel, policy);
    }
  }

  /** Calls that no VM runs: to a system contract, which sees the true caller, to an account
      without code, which succeeds and does nothing, or to nobody. */
  lemma PlainCall(env: Env, l: Ledger, c: Invocation, height: nat, depth: nat, fuel: nat, policy: Option<Policy>)
    requires IsSystem(c.target) || !HasCode(l, c.target)
    ensures var r := Dispatch(env, l, c, height, depth, fuel, policy);
      if !Reachable(c, depth, policy) || (IsSystem(c.target) && !env.isUtf8(c.callMethod))
         || (!IsSystem(c.target) && c.target !in l.accounts)
      then r == Exec(l, fuel, 0, false, [])
      else if IsSystem(c.target) then
        var s := env.systemCall(l, c.caller, c.target, c.callMethod, c.args);
        r.ok == s.ok && r.ledger == s.ledger && r.fuel == fuel && r.gas == (if s.ok then 500 + s.gas else 0)
      else r.ok && r.ledger == l && r.fuel == fuel && r.gas == 500
  {
  }
}
