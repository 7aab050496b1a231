/** The lifetime budget of a session key, over a chain's whole life. */
module Budgets {
  import opened Types
  import opened Ledger
  import opened Calls
  import opened Operations
  import opened OperationLaws
  import opened Frames
  import opened Blocks
  import opened Sessions

  /** The budget an event runs on, if it is an operation of the owner that the key signed
      as a session with a budget. */
  ghost function BudgetFor(env: Env, l: Ledger, e: Happening, owner: Id, key: Id): Option<nat> {
    if e.Other? || e.op.sender != owner || owner !in l.accounts || SystemAuthorized(e.op) then None
    else
      match SessionFor(env, l.accounts[owner].auth, e.op)
      case None => None
      case Some(s) => if s.sessionKey == key && s.budgetTotal > 0 then Some(s.budgetTotal) else None
  }

  /** What the key spends in one event. */
  ghost function SpentIn(env: Env, l: Ledger, e: Happening, owner: Id, key: Id): nat {
    if BudgetFor(env, l, e, owner, key).Some? && ExecuteOp(env, l, e.op, e.height).success then Spend(e.op.actions) else 0
  }

  /** What it spends in the first n events. */
  ghost function SpentOver(env: Env, ledgers: seq<Ledger>, events: seq<Happening>, n: nat, owner: Id, key: Id): nat
    requires |ledgers| == |events| + 1 && n <= |events|
  {
    if n == 0 then 0
    else SpentOver(env, ledgers, events, n - 1, owner, key) + SpentIn(env, ledgers[n - 1], events[n - 1], owner, key)
  }

  /** A step of a chain without system calls, in which the key never has more than the
      given budget. */
  ghost predicate Within(env: Env, l: Ledger, e: Happening, l': Ledger, owner: Id, key: Id, budget: nat) {
    && Total(l) <= MAX_U128
    && (match e
        case Runs(op, height) => l' == ExecuteOp(env, l, op, height).ledger && NoSystem(ExecuteOp(env, l, op, height).trace)
        case Other => l'.spent == l.spent)
    && (BudgetFor(env, l, e, owner, key).Some? ==> BudgetFor(env, l, e, owner, key).value <= budget)
  }

  /** Whatever an operation writes to the running totals, it is its own charge. */
  lemma OnlyCharged(env: Env, l: Ledger, op: UserOperation, height: nat) returns (p: Prepared)
    requires ExecuteOp(env, l, op, height).valid && Total(l) <= MAX_U128 && NoSystem(ExecuteOp(env, l, op, height).trace)
    ensures Validate(env, l, op, height) == Some(p)
    ensures var r := ExecuteOp(env, l, op, height).ledger;
      r.spent == l.spent || (p.charge.Some? && r.spent == l.spent[p.charge.value.0 := p.charge.value.1])
  {
    var run;
    p, run := OpRun(env, l, op, height);
    ReservedTotal(env, l, op, height);
    if run.ok {
      ActionsOk(env, Reserved(p.ledger, op), op.sender, op.actions, map[], height, p.policy);
      SettledSpent(env, op, height, Reserve(p.ledger, op), p.charge, run);
    }
  }

  /** Only the owner's operations signed by the key with a budget move its running total. */
  lemma OthersKeepTotal(env: Env, l: Ledger, op: UserOperation, height: nat, owner: Id, key: Id)
    requires Total(l) <= MAX_U128 && NoSystem(ExecuteOp(env, l, op, height).trace)
    requires BudgetFor(env, l, Runs(op, height), owner, key).None?
    ensures SpentBy(ExecuteOp(env, l, op, height).ledger, owner, key) == SpentBy(l, owner, key)
  {
    if ExecuteOp(env, l, op, height).valid {
      var p := OnlyCharged(env, l, op, height);
      assert p.charge.Some? ==> p.charge.value.0 != (owner, key);
    }
  }

  lemma TotalMoves(env: Env, l: Ledger, e: Happening, l': Ledger, owner: Id, key: Id, budget: nat)
    requires Within(env, l, e, l', owner, key, budget) && SpentBy(l, owner, key) <= budget < MAX_U128
    ensures SpentBy(l', owner, key) == SpentBy(l, owner, key) + SpentIn(env, l, e, owner, key) <= budget
  {
    if e.Runs? {
      match BudgetFor(env, l, e, owner, key)
      case None => OthersKeepTotal(env, l, e.op, e.height, owner, key);
      case Some(_) => SessionBudget(env, l, e.op, e.height, SessionFor(env, l.accounts[owner].auth, e.op).value);
    }
  }

  /** Over any chain, whatever other keys and accounts do and however often the key's
      sessions are replaced, the running total is exactly what the key has spent, and all
      of it together never passes the budget. */
  lemma {:induction false} LifetimeBudget(env: Env, ledgers: seq<Ledger>, events: seq<Happening>, n: nat,
                                          owner: Id, key: Id, budget: nat)
    requires |ledgers| == |events| + 1 && n <= |events|
    requires forall i {:trigger events[i]} :: 0 <= i < n ==>
      Within(env, ledgers[i], events[i], ledgers[i + 1], owner, key, budget)
    requires SpentBy(ledgers[0], owner, key) <= budget < MAX_U128
    ensures SpentBy(ledgers[n], owner, key)
            == SpentBy(ledgers[0], owner, key) + SpentOver(env, ledgers, events, n, owner, key) <= budget
  {
    if n > 0 {
      LifetimeBudget(env, ledgers, events, n - 1, owner, key, budget);
      TotalMoves(env, ledgers[n - 1], events[n - 1], ledgers[n], owner, key, budget);
    }
  }
}
