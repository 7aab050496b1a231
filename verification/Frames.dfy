/** Where the frames of an operation come from, and the value each of its calls is handed. */
module Frames {
  import opened Types
  import opened Ledger
  import opened Calls
  import opened Operations

  // ---------- Value attached to calls ----------

  /** Native value sent to `target` by the first `i` actions since they last called it. */
  function Owed(actions: seq<Action>, i: nat, target: Id): nat
    requires i <= |actions|
  {
    if i == 0 then 0
    else
      var a := actions[i - 1];
      if a.Call? && a.target == target then 0
      else if a.Transfer? && a.to == target then SatAdd(Owed(actions, i - 1, target), a.amount)
      else Owed(actions, i - 1, target)
  }

  /** The running map after the first `i` actions. */
  function Tracked(actions: seq<Action>, i: nat): map<Id, nat>
    requires i <= |actions|
  {
    if i == 0 then map[] else Track(Tracked(actions, i - 1), actions[i - 1])
  }

  lemma {:induction false} TrackedIsOwed(actions: seq<Action>, i: nat, target: Id)
    requires i <= |actions|
    ensures (if target in Tracked(actions, i) then Tracked(actions, i)[target] else 0) == Owed(actions, i, target)
  {
    if i > 0 { TrackedIsOwed(actions, i - 1, target); }
  }

  // ---------- Top frames ----------

  /** In a call tree only the first frame is at the top. */
  lemma DispatchTop(env: Env, l: Ledger, c: Invocation, height: nat, depth: nat, fuel: nat, policy: Option<Policy>, i: nat)
    requires i < |Dispatch(env, l, c, height, depth, fuel, policy).trace|
    ensures var f := Dispatch(env, l, c, height, depth, fuel, policy).trace[i];
      f.depth == depth ==> f.call == c
  {
    if RunsCode(l, c, depth, fuel, policy) && env.vm(VmInput(l, c, height, fuel)).VmDone? {
      var v := env.vm(VmInput(l, c, height, fuel));
      var (paid, covered) := PayOut(SaveStorage(env, l, c.target, v.storage), c.target, v.transfers);
      var left := if v.gas <= fuel then fuel - v.gas else 0;
      if covered && i > 0 {
        DispatchAllOk(env, paid, c.target, v.calls, height, depth + 1, left, policy);
        var below := DispatchAll(env, paid, c.target, v.calls, height, depth + 1, left, policy).trace;
        assert Dispatch(env, l, c, height, depth, fuel, policy).trace[i] == below[i - 1];
      }
    }
  }

  /** The frame is the call of action `j`, by the sender, with the value owed to its target. */
  ghost predicate IsAction(f: Frame, sender: Id, actions: seq<Action>, j: nat) {
    && j < |actions| && actions[j].Call?
    && f.call == Invocation(sender, actions[j].target, actions[j].callMethod, actions[j].args,
                            Owed(actions, j, actions[j].target))
  }

  /** What is promised of every frame. */
  ghost predicate FrameOk(f: Frame, sender: Id, actions: seq<Action>, policy: Option<Policy>) {
    && (f.depth == 0 ==> exists j :: IsAction(f, sender, actions, j))
    && (f.depth > 0 ==> Permits(policy, f.call.target, f.call.callMethod))
  }

  lemma ActionFrames(env: Env, l: Ledger, sender: Id, a: Action, msgValue: nat, height: nat, policy: Option<Policy>, i: nat)
    requires i < |RunAction(env, l, sender, a, msgValue, height, policy).trace|
    ensures var f := RunAction(env, l, sender, a, msgValue, height, policy).trace[i];
      && (f.depth == 0 ==> a.Call? && f.call == Invocation(sender, a.target, a.callMethod, a.args, msgValue))
      && (f.depth > 0 ==> Permits(policy, f.call.target, f.call.callMethod))
  {
    if a.Call? && !IsSystem(a.target) {
      var c := Invocation(sender, a.target, a.callMethod, a.args, msgValue);
      DispatchTop(env, l, c, height, 0, MAX_CALL_TREE_FUEL, policy, i);
      DispatchOk(env, l, c, height, 0, MAX_CALL_TREE_FUEL, policy);
    }
  }

  /** A frame of a run is a frame of its first action, or of the rest. */
  lemma TraceAt(env: Env, l: Ledger, sender: Id, actions: seq<Action>, pending: map<Id, nat>, height: nat,
                policy: Option<Policy>, i: nat)
    requires actions != [] && i < |RunActions(env, l, sender, actions, pending, height, policy).trace|
    ensures var f := RunActions(env, l, sender, actions, pending, height, policy).trace[i];
      var r := RunAction(env, l, sender, actions[0], ValueFor(pending, actions[0]), height, policy);
      var later := RunActions(env, r.ledger, sender, actions[1..], Track(pending, actions[0]), height, policy);
      if i < |r.trace| then f == r.trace[i] else i - |r.trace| < |later.trace| && f == later.trace[i - |r.trace|]
  {
    var r := RunAction(env, l, sender, actions[0], ValueFor(pending, actions[0]), height, policy);
    var later := RunActions(env, r.ledger, sender, actions[1..], Track(pending, actions[0]), height, policy);
    assert RunActions(env, l, sender, actions, pending, height, policy) == if r.ok then Combine(r, later) else r;
  }

  /** Frames of the actions from `k` on, run with the values tracked so far. */
  lemma {:induction false} RunFrames(env: Env, l: Ledger, sender: Id, actions: seq<Action>, k: nat, height: nat,
                                     policy: Option<Policy>, i: nat)
    requires k <= |actions|
    requires i < |RunActions(env, l, sender, actions[k..], Tracked(actions, k), height, policy).trace|
    ensures FrameOk(RunActions(env, l, sender, actions[k..], Tracked(actions, k), height, policy).trace[i],
                    sender, actions, policy)
    decreases |actions| - k
  {
    var rest := actions[k..];
    if rest != [] {
      var a, pending := actions[k], Tracked(actions, k);
      assert rest[0] == a && rest[1..] == actions[k + 1..] && Track(pending, a) == Tracked(actions, k + 1);
      var r := RunAction(env, l, sender, a, ValueFor(pending, a), height, policy);
      TraceAt(env, l, sender, rest, pending, height, policy, i);
      if i < |r.trace| {
        ActionFrames(env, l, sender, a, ValueFor(pending, a), height, policy, i);
        if r.trace[i].depth == 0 {
          TrackedIsOwed(actions, k, a.target);
          assert IsAction(r.trace[i], sender, actions, k);
        }
      } else {
        RunFrames(env, r.ledger, sender, actions, k + 1, height, policy, i - |r.trace|);
      }
    }
  }

  lemma OpRun(env: Env, l: Ledger, op: UserOperation, height: nat) returns (p: Prepared, run: Progress)
    requires ExecuteOp(env, l, op, height).valid
    ensures Validate(env, l, op, height) == Some(p)
    ensures run == RunActions(env, Reserved(p.ledger, op), op.sender, op.actions, map[], height, p.policy)
    ensures ExecuteOp(env, l, op, height).trace == run.trace && ExecuteOp(env, l, op, height).success == run.ok
  {
    p := Validate(env, l, op, height).value;
    run := RunActions(env, Reserved(p.ledger, op), op.sender, op.actions, map[], height, p.policy);
  }

  /** Every top frame of an operation is one of its own calls, made by the sender and
      handed exactly the value transferred to the target since it was last called; every
      frame below is on the allowlist in force. */
  lemma OpFrames(env: Env, l: Ledger, op: UserOperation, height: nat, i: nat)
    requires i < |ExecuteOp(env, l, op, height).trace|
    ensures var f := ExecuteOp(env, l, op, height).trace[i];
      f.depth == 0 ==> exists j :: IsAction(f, op.sender, op.actions, j)
    ensures Validate(env, l, op, height).Some?
    ensures var f := ExecuteOp(env, l, op, height).trace[i];
      f.depth > 0 ==> Permits(Validate(env, l, op, height).value.policy, f.call.target, f.call.callMethod)
  {
    var p, run := OpRun(env, l, op, height);
    assert op.actions[0..] == op.actions;
    RunFrames(env, Reserved(p.ledger, op), op.sender, op.actions, 0, height, p.policy, i);
  }
}
