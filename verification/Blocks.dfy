/** Blocks of operations: replay protection over whole chains, and the two-phase
    execution that checks signatures ahead of time. */
module Blocks {
  import opened Types
  import opened Ledger
  import opened Calls
  import opened Operations
  import opened OperationLaws
  import opened Nonces

  // ---------- Replay protection ----------

  /** A chain's life seen from the ledger: operations, and whatever happens between
      them that lowers no nonce (epoch rewards, a new stored height). */
  datatype Happening = Runs(op: UserOperation, height: nat) | Other

  ghost predicate Happens(env: Env, l: Ledger, e: Happening, l': Ledger) {
    match e
    case Runs(op, height) => l' == ExecuteOp(env, l, op, height).ledger
    case Other => NoncesHold(l, l')
  }

  /** No operation makes a system call, and one that succeeds deploys to fresh targets. */
  ghost predicate Plain(env: Env, l: Ledger, e: Happening) {
    && Total(l) <= MAX_U128
    && (e.Runs? ==> NoSystem(ExecuteOp(env, l, e.op, e.height).trace))
    && (e.Runs? && ExecuteOp(env, l, e.op, e.height).success ==> FreshTargets(env, l, e.op))
  }

  ghost predicate LedgerRun(env: Env, ledgers: seq<Ledger>, events: seq<Happening>) {
    && |ledgers| == |events| + 1
    && forall i {:trigger events[i]} :: 0 <= i < |events| ==>
         Happens(env, ledgers[i], events[i], ledgers[i + 1]) && Plain(env, ledgers[i], events[i])
  }

  /** An operation that passes validation leaves its sender beyond its nonce, and no
      account below where it was. */
  lemma OpGrows(env: Env, l: Ledger, op: UserOperation, height: nat)
    requires Plain(env, l, Runs(op, height))
    ensures var r := ExecuteOp(env, l, op, height);
      NoncesHold(l, r.ledger) && (r.valid ==> NonceAt(l, op.sender) == op.nonce < NonceAt(r.ledger, op.sender))
  {
    var r := ExecuteOp(env, l, op, height);
    OpNonces(env, l, op, height, op.sender);
    if r.valid {
      if r.success {
        NoncesHoldIff(env, l, op, height);
      } else {
        forall id ensures NonceAt(r.ledger, id) == NonceAt(Advanced(l, op), id) { OpNonces(env, l, op, height, id); }
      }
      assert NonceAt(Advanced(l, op), op.sender) == op.nonce + 1;
      forall id ensures NonceAt(r.ledger, id) >= NonceAt(l, id) {
        assert NonceAt(Advanced(l, op), id) >= NonceAt(l, id);
      }
    }
  }

  lemma StepGrows(env: Env, l: Ledger, e: Happening, l': Ledger)
    requires Happens(env, l, e, l') && Plain(env, l, e)
    ensures NoncesHold(l, l')
  {
    if e.Runs? { OpGrows(env, l, e.op, e.height); }
  }

  lemma HoldTransitive(a: Ledger, b: Ledger, c: Ledger)
    requires NoncesHold(a, b) && NoncesHold(b, c)
    ensures NoncesHold(a, c)
  {
    forall id ensures NonceAt(c, id) >= NonceAt(a, id) {
      assert NonceAt(b, id) >= NonceAt(a, id);
    }
  }

  lemma {:induction false} RunGrows(env: Env, ledgers: seq<Ledger>, events: seq<Happening>, i: nat, j: nat)
    requires LedgerRun(env, ledgers, events) && i <= j < |ledgers|
    ensures NoncesHold(ledgers[i], ledgers[j])
  {
    if i < j {
      RunGrows(env, ledgers, events, i, j - 1);
      StepGrows(env, ledgers[j - 1], events[j - 1], ledgers[j]);
      HoldTransitive(ledgers[i], ledgers[j - 1], ledgers[j]);
    }
  }

  ghost predicate Passes(env: Env, l: Ledger, e: Happening) {
    e.Runs? && ExecuteOp(env, l, e.op, e.height).valid
  }

  /** Over any sequence of blocks, at most one operation per sender and nonce passes
      validation, even when operations fail and roll back. */
  lemma NoReplay(env: Env, ledgers: seq<Ledger>, events: seq<Happening>, i: nat, j: nat)
    requires LedgerRun(env, ledgers, events) && i < j < |events|
    requires Passes(env, ledgers[i], events[i]) && Passes(env, ledgers[j], events[j])
    requires events[i].op.sender == events[j].op.sender
    ensures events[i].op.nonce < events[j].op.nonce
  {
    var a, b := events[i].op, events[j].op;
    OpGrows(env, ledgers[i], a, events[i].height);
    RunGrows(env, ledgers, events, i + 1, j);
    OpGrows(env, ledgers[j], b, events[j].height);
    assert NonceAt(ledgers[j], a.sender) >= NonceAt(ledgers[i + 1], a.sender);
  }

  // ---------- Two ways to execute a block ----------

  datatype Receipt = Receipt(success: bool, gas: nat)

  /** Ledger after, and receipt of, each operation in turn. */
  datatype Outcome = Outcome(ledger: Ledger, receipt: Receipt)

  function OutcomeOf(r: OpResult): Outcome { Outcome(r.ledger, Receipt(r.success, r.gas)) }

  /** The ledger a block leaves behind. */
  function LastLedger(l: Ledger, outcomes: seq<Outcome>): Ledger {
    if outcomes == [] then l else outcomes[|outcomes| - 1].ledger
  }

  /** `execute_block_sequential` */
  function Sequential(env: Env, l: Ledger, ops: seq<UserOperation>, height: nat): seq<Outcome>
    decreases |ops|
  {
    if ops == [] then []
    else
      var o := OutcomeOf(ExecuteOp(env, l, ops[0], height));
      [o] + Sequential(env, o.ledger, ops[1..], height)
  }

  /** The signature check done ahead of time, on the accounts as the block finds them. */
  predicate PreCheck(env: Env, start: Ledger, op: UserOperation, height: nat) {
    SystemAuthorized(op) || (op.sender in start.accounts && Signed(env, start.accounts[op.sender].auth, op, height))
  }

  function ParallelOp(env: Env, start: Ledger, l: Ledger, op: UserOperation, height: nat): Outcome {
    if PreCheck(env, start, op, height) then OutcomeOf(ExecuteOp(env, l, op, height))
    else Outcome(l, Receipt(false, 0))
  }

  /** `execute_block_parallel` */
  function Parallel(env: Env, start: Ledger, l: Ledger, ops: seq<UserOperation>, height: nat): seq<Outcome>
    decreases |ops|
  {
    if ops == [] then []
    else
      var o := ParallelOp(env, start, l, ops[0], height);
      [o] + Parallel(env, start, o.ledger, ops[1..], height)
  }

  /** An operation skipped ahead of time that would have passed in its turn. */
  predicate Missed(env: Env, start: Ledger, l: Ledger, op: UserOperation, height: nat) {
    !PreCheck(env, start, op, height) && ExecuteOp(env, l, op, height).valid
  }

  predicate NoneMissed(env: Env, start: Ledger, l: Ledger, ops: seq<UserOperation>, height: nat)
    decreases |ops|
  {
    ops == [] || (!Missed(env, start, l, ops[0], height)
                  && NoneMissed(env, start, ExecuteOp(env, l, ops[0], height).ledger, ops[1..], height))
  }

  /** Skipping an operation shows, in its ledger or its receipt, exactly when it was missed. */
  lemma MissedShows(env: Env, start: Ledger, l: Ledger, op: UserOperation, height: nat)
    ensures ParallelOp(env, start, l, op, height) == OutcomeOf(ExecuteOp(env, l, op, height))
            <==> !Missed(env, start, l, op, height)
  {
  }

  /** The two executions agree on every ledger, success flag and gas if and only if no
      operation that would pass in its turn is rejected on the accounts of the block's
      start. */
  lemma {:induction false} ParallelIff(env: Env, start: Ledger, l: Ledger, ops: seq<UserOperation>, height: nat)
    ensures Parallel(env, start, l, ops, height) == Sequential(env, l, ops, height) <==> NoneMissed(env, start, l, ops, height)
    decreases |ops|
  {
    if ops != [] {
      MissedShows(env, start, l, ops[0], height);
      var o, q := ParallelOp(env, start, l, ops[0], height), OutcomeOf(ExecuteOp(env, l, ops[0], height));
      var par, sq := Parallel(env, start, o.ledger, ops[1..], height), Sequential(env, q.ledger, ops[1..], height);
      assert Parallel(env, start, l, ops, height)[0] == o && Parallel(env, start, l, ops, height)[1..] == par;
      assert Sequential(env, l, ops, height)[0] == q && Sequential(env, l, ops, height)[1..] == sq;
      ParallelIff(env, start, q.ledger, ops[1..], height);
    }
  }

  /** By its turn, no sender is new or has other authorisation than at the block's start. */
  predicate SendersSettled(env: Env, start: Ledger, l: Ledger, ops: seq<UserOperation>, height: nat)
    decreases |ops|
  {
    ops == [] ||
    (var id := ops[0].sender;
     && (id in l.accounts ==> id in start.accounts && start.accounts[id].auth == l.accounts[id].auth)
     && SendersSettled(env, start, ExecuteOp(env, l, ops[0], height).ledger, ops[1..], height))
  }

  /** Then the two executions are the same. */
  lemma {:induction false} ParallelSame(env: Env, start: Ledger, l: Ledger, ops: seq<UserOperation>, height: nat)
    requires SendersSettled(env, start, l, ops, height)
    ensures Parallel(env, start, l, ops, height) == Sequential(env, l, ops, height)
  {
    SettledMissNone(env, start, l, ops, height);
    ParallelIff(env, start, l, ops, height);
  }

  lemma {:induction false} SettledMissNone(env: Env, start: Ledger, l: Ledger, ops: seq<UserOperation>, height: nat)
    requires SendersSettled(env, start, l, ops, height)
    ensures NoneMissed(env, start, l, ops, height)
    decreases |ops|
  {
    if ops != [] { SettledMissNone(env, start, ExecuteOp(env, l, ops[0], height).ledger, ops[1..], height); }
  }

  // ---------- Conservation over a block ----------

  function Results(env: Env, l: Ledger, ops: seq<UserOperation>, height: nat): seq<OpResult>
    decreases |ops|
  {
    if ops == [] then []
    else
      var r := ExecuteOp(env, l, ops[0], height);
      [r] + Results(env, r.ledger, ops[1..], height)
  }

  /** Fees paid and balances overwritten, less what the treasury received. */
  function Outflow(results: seq<OpResult>): int {
    if results == [] then 0 else results[0].fee + results[0].lost - results[0].credit + Outflow(results[1..])
  }

  function LedgerAfter(l: Ledger, results: seq<OpResult>): Ledger {
    if results == [] then l else results[|results| - 1].ledger
  }

  ghost predicate AllPlain(results: seq<OpResult>) {
    forall i :: 0 <= i < |results| ==> NoSystem(results[i].trace)
  }

  /** Over any block without system calls the supply falls by exactly the outflow, and
      never rises. */
  lemma {:induction false} BlockConserves(env: Env, l: Ledger, ops: seq<UserOperation>, height: nat)
    requires height >= env.feeFixHeight && Total(l) <= MAX_U128 && BurnRate(env, l) <= 10_000
    requires AllPlain(Results(env, l, ops, height))
    ensures var rs := Results(env, l, ops, height);
      Total(LedgerAfter(l, rs)) + Outflow(rs) == Total(l) && Outflow(rs) >= 0
    decreases |ops|
  {
    if ops != [] {
      var r := ExecuteOp(env, l, ops[0], height);
      var rs, rest := Results(env, l, ops, height), Results(env, r.ledger, ops[1..], height);
      assert rs[0] == r && rs[1..] == rest;
      OpConserves(env, l, ops[0], height);
      assert AllPlain(rest) by { assert forall i :: 0 <= i < |rest| ==> rest[i] == rs[i + 1]; }
      BlockConserves(env, r.ledger, ops[1..], height);
    }
  }
}
