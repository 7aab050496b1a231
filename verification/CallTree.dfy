/** The shape of a call tree: who calls whom, with what, and that nothing queued is lost. */
module CallTree {
  import opened Types
  import opened Ledger
  import opened Calls

  /** The calls the VM returned for a frame. */
  function Queue(env: Env, f: Frame): seq<Queued> {
    if f.input.Some? && env.vm(f.input.value).VmDone? then env.vm(f.input.value).calls else []
  }

  /** Frames at depth `d` in `t[from..to]`. */
  function CountAt(t: seq<Frame>, from: nat, to: nat, d: nat): nat
    requires to <= |t|
  {
    if to <= from then 0 else CountAt(t, from, to - 1, d) + if t[to - 1].depth == d then 1 else 0
  }

  /** The call is entry `k` of a queue, made by `caller` without value. */
  predicate IsQueued(call: Invocation, caller: Id, queue: seq<Queued>, k: nat) {
    k < |queue| && call == Invocation(caller, queue[k].target, queue[k].callMethod, queue[k].args, 0)
  }

  /** Frame `p` is the nearest earlier frame one level up, and frame `i` is the call it
      queued in the position that its earlier calls leave. */
  ghost predicate Spawns(env: Env, t: seq<Frame>, p: nat, i: nat) {
    && p < i < |t| && t[i].depth == t[p].depth + 1
    && (forall j :: p < j < i ==> t[j].depth > t[p].depth)
    && IsQueued(t[i].call, t[p].call.target, Queue(env, t[p]), CountAt(t, p + 1, i, t[i].depth))
  }

  ghost predicate HasCaller(env: Env, t: seq<Frame>, i: nat) { exists p: nat :: Spawns(env, t, p, i) }

  /** The frames below `depth` all have their caller in the trace. */
  ghost predicate Nested(env: Env, t: seq<Frame>, depth: nat) {
    && (forall i: nat :: i < |t| ==> t[i].depth >= depth)
    && (forall i: nat {:trigger HasCaller(env, t, i)} :: i < |t| && t[i].depth > depth ==> HasCaller(env, t, i))
  }

  /** The frames at `depth` are the calls of a queue, in order. */
  ghost predicate InOrder(t: seq<Frame>, depth: nat, caller: Id, queue: seq<Queued>) {
    forall i: nat :: i < |t| && t[i].depth == depth ==> IsQueued(t[i].call, caller, queue, CountAt(t, 0, i, depth))
  }

  // ---------- Joining traces ----------

  lemma {:induction false} CountShift(a: seq<Frame>, b: seq<Frame>, from: nat, to: nat, d: nat)
    requires to <= |b|
    ensures CountAt(a + b, |a| + from, |a| + to, d) == CountAt(b, from, to, d)
  {
    if from < to { CountShift(a, b, from, to - 1, d); }
  }

  lemma {:induction false} CountPrefix(a: seq<Frame>, b: seq<Frame>, from: nat, to: nat, d: nat)
    requires to <= |a|
    ensures CountAt(a + b, from, to, d) == CountAt(a, from, to, d)
  {
    if from < to { CountPrefix(a, b, from, to - 1, d); }
  }

  lemma {:induction false} CountSplit(t: seq<Frame>, from: nat, mid: nat, to: nat, d: nat)
    requires from <= mid <= to <= |t|
    ensures CountAt(t, from, to, d) == CountAt(t, from, mid, d) + CountAt(t, mid, to, d)
  {
    if mid < to { CountSplit(t, from, mid, to - 1, d); }
  }

  lemma {:induction false} ShiftCaller(env: Env, a: seq<Frame>, b: seq<Frame>, i: nat)
    requires i < |b| && HasCaller(env, b, i)
    ensures HasCaller(env, a + b, |a| + i)
  {
    var p: nat :| Spawns(env, b, p, i);
    var t := a + b;
    CountShift(a, b, p + 1, i, b[i].depth);
    assert t[|a| + i] == b[i] && t[|a| + p] == b[p];
    assert forall j :: |a| + p < j < |a| + i ==> t[j] == b[j - |a|];
    assert Spawns(env, t, |a| + p, |a| + i);
  }

  lemma {:induction false} PrefixCaller(env: Env, a: seq<Frame>, b: seq<Frame>, i: nat)
    requires i < |a| && HasCaller(env, a, i)
    ensures HasCaller(env, a + b, i)
  {
    var p: nat :| Spawns(env, a, p, i);
    CountPrefix(a, b, p + 1, i, a[i].depth);
    assert Spawns(env, a + b, p, i);
  }

  lemma {:induction false} NestedJoin(env: Env, a: seq<Frame>, b: seq<Frame>, depth: nat)
    requires Nested(env, a, depth) && Nested(env, b, depth)
    ensures Nested(env, a + b, depth)
  {
    var t := a + b;
    forall i: nat | i < |t| ensures t[i].depth >= depth && (t[i].depth > depth ==> HasCaller(env, t, i)) {
      JoinCaller(env, a, b, depth, i);
    }
  }

  lemma {:induction false} JoinCaller(env: Env, a: seq<Frame>, b: seq<Frame>, depth: nat, i: nat)
    requires Nested(env, a, depth) && Nested(env, b, depth) && i < |a + b|
    ensures (a + b)[i].depth >= depth && ((a + b)[i].depth > depth ==> HasCaller(env, a + b, i))
  {
    if i < |a| {
      if a[i].depth > depth {
        assert HasCaller(env, a, i);
        PrefixCaller(env, a, b, i);
      }
    } else {
      var k := i - |a|;
      assert (a + b)[i] == b[k];
      if b[k].depth > depth {
        assert HasCaller(env, b, k);
        ShiftCaller(env, a, b, k);
      }
    }
  }

  /** A frame in front of the calls it queued. */
  lemma {:induction false} NestedUnder(env: Env, f: Frame, b: seq<Frame>)
    requires Nested(env, b, f.depth + 1) && InOrder(b, f.depth + 1, f.call.target, Queue(env, f))
    ensures Nested(env, [f] + b, f.depth)
  {
    var t := [f] + b;
    forall i: nat | i < |t| ensures t[i].depth >= f.depth && (t[i].depth > f.depth ==> HasCaller(env, t, i)) {
      if i > 0 { UnderCaller(env, f, b, i - 1); }
    }
  }

  lemma {:induction false} UnderCaller(env: Env, f: Frame, b: seq<Frame>, i: nat)
    requires i < |b| && Nested(env, b, f.depth + 1) && InOrder(b, f.depth + 1, f.call.target, Queue(env, f))
    ensures ([f] + b)[i + 1] == b[i] && b[i].depth > f.depth && HasCaller(env, [f] + b, i + 1)
  {
    if b[i].depth > f.depth + 1 {
      ShiftCaller(env, [f], b, i);
    } else {
      assert IsQueued(b[i].call, f.call.target, Queue(env, f), CountAt(b, 0, i, b[i].depth));
      assert forall j: nat :: j < i ==> b[j].depth > f.depth;
      DirectCaller(env, f, b, i);
    }
  }

  lemma {:induction false} DirectCaller(env: Env, f: Frame, b: seq<Frame>, i: nat)
    requires i < |b| && b[i].depth == f.depth + 1 && forall j: nat :: j < i ==> b[j].depth > f.depth
    requires IsQueued(b[i].call, f.call.target, Queue(env, f), CountAt(b, 0, i, b[i].depth))
    ensures HasCaller(env, [f] + b, i + 1)
  {
    var t := [f] + b;
    CountShift([f], b, 0, i, b[i].depth);
    forall j | 0 < j < i + 1 ensures t[j].depth > f.depth { assert t[j] == b[j - 1]; }
    assert t[0] == f && t[i + 1] == b[i];
    assert Spawns(env, t, 0, i + 1);
  }

  lemma {:induction false} NoneBelow(t: seq<Frame>, from: nat, to: nat, d: nat)
    requires to <= |t| && forall j :: from <= j < to ==> t[j].depth != d
    ensures CountAt(t, from, to, d) == 0
  {
    if from < to { NoneBelow(t, from, to - 1, d); }
  }

  lemma {:induction false} OrderJoin(a: seq<Frame>, b: seq<Frame>, depth: nat, caller: Id, queue: seq<Queued>)
    requires queue != [] && a != [] && a[0].depth == depth && IsQueued(a[0].call, caller, queue, 0)
    requires forall i :: 0 < i < |a| ==> a[i].depth != depth
    requires InOrder(b, depth, caller, queue[1..])
    ensures InOrder(a + b, depth, caller, queue)
  {
    var t := a + b;
    forall i: nat | i < |t| && t[i].depth == depth ensures IsQueued(t[i].call, caller, queue, CountAt(t, 0, i, depth)) {
      if i >= |a| {
        OneInFront(a, b, i - |a|, depth);
        assert t[i] == b[i - |a|];
      }
    }
  }

  lemma {:induction false} OneInFront(a: seq<Frame>, b: seq<Frame>, i: nat, depth: nat)
    requires a != [] && a[0].depth == depth && (forall j :: 0 < j < |a| ==> a[j].depth != depth) && i <= |b|
    ensures CountAt(a + b, 0, |a| + i, depth) == 1 + CountAt(b, 0, i, depth)
  {
    CountSplit(a + b, 0, |a|, |a| + i, depth);
    CountPrefix(a, b, 0, |a|, depth);
    CountSplit(a, 0, 1, |a|, depth);
    NoneBelow(a, 1, |a|, depth);
    CountShift(a, b, 0, i, depth);
    assert CountAt(a, 0, 1, depth) == CountAt(a, 0, 0, depth) + 1;
  }

  // ---------- Every call tree ----------

  /** Calls queued over all frames. */
  function QueuedIn(env: Env, t: seq<Frame>): nat {
    if t == [] then 0 else |Queue(env, t[0])| + QueuedIn(env, t[1..])
  }

  lemma {:induction false} QueuedJoin(env: Env, a: seq<Frame>, b: seq<Frame>)
    ensures QueuedIn(env, a + b) == QueuedIn(env, a) + QueuedIn(env, b)
  {
    if a == [] {
      assert a + b == b;
    } else {
      assert (a + b)[1..] == a[1..] + b;
      QueuedJoin(env, a[1..], b);
    }
  }

  /** One tree: a top frame for the call itself, everything else below it with its caller.
      On success there is a frame for every call that was queued. */
  ghost predicate OneTree(env: Env, c: Invocation, depth: nat, r: Exec) {
    && Nested(env, r.trace, depth)
    && (r.trace != [] ==> r.trace[0].depth == depth && r.trace[0].call == c)
    && (forall i :: 0 < i < |r.trace| ==> r.trace[i].depth > depth)
    && (r.ok ==> r.trace != [] && |r.trace| == 1 + QueuedIn(env, r.trace))
  }

  ghost predicate ManyTrees(env: Env, caller: Id, queue: seq<Queued>, depth: nat, r: Exec) {
    && Nested(env, r.trace, depth) && InOrder(r.trace, depth, caller, queue)
    && (r.ok ==> |r.trace| == |queue| + QueuedIn(env, r.trace))
  }

  lemma {:induction false} LoneFrame(env: Env, c: Invocation, depth: nat, r: Exec)
    requires |r.trace| <= 1 && (r.trace == [] ==> !r.ok)
    requires r.trace != [] ==> r.trace[0].depth == depth && r.trace[0].call == c && (r.ok ==> Queue(env, r.trace[0]) == [])
    ensures OneTree(env, c, depth, r)
  {
  }

  lemma {:induction false} TreeUnder(env: Env, c: Invocation, f: Frame, below: Exec, whole: Exec)
    requires f.call == c && ManyTrees(env, c.target, Queue(env, f), f.depth + 1, below)
    requires whole.trace == [f] + below.trace && whole.ok == below.ok
    ensures OneTree(env, c, f.depth, whole)
  {
    NestedUnder(env, f, below.trace);
    QueuedJoin(env, [f], below.trace);
    assert [f][1..] == [];
    assert QueuedIn(env, [f]) == |Queue(env, f)| + QueuedIn(env, [f][1..]);
    forall i | 0 < i < |whole.trace| ensures whole.trace[i].depth > f.depth { assert whole.trace[i] == below.trace[i - 1]; }
  }

  /** The ledger and outcome of a frame's storage and native transfers. */
  function Settles(env: Env, l: Ledger, self: Id, v: VmResult): (Ledger, bool)
    requires v.VmDone?
  {
    PayOut(SaveStorage(env, l, self, v.storage), self, v.transfers)
  }

  predicate Spawning(env: Env, l: Ledger, c: Invocation, height: nat, depth: nat, fuel: nat, policy: Option<Policy>) {
    && RunsCode(l, c, depth, fuel, policy) && env.vm(VmInput(l, c, height, fuel)).VmDone?
    && Settles(env, l, c.target, env.vm(VmInput(l, c, height, fuel))).1
  }

  /** What a frame queued, run on what it left. */
  function Below(env: Env, l: Ledger, c: Invocation, height: nat, depth: nat, fuel: nat, policy: Option<Policy>): Exec
    requires Spawning(env, l, c, height, depth, fuel, policy)
  {
    var v := env.vm(VmInput(l, c, height, fuel));
    DispatchAll(env, Settles(env, l, c.target, v).0, c.target, v.calls, height, depth + 1,
                if v.gas <= fuel then fuel - v.gas else 0, policy)
  }

  lemma SpawningCall(env: Env, l: Ledger, c: Invocation, height: nat, depth: nat, fuel: nat, policy: Option<Policy>)
    requires Spawning(env, l, c, height, depth, fuel, policy)
    ensures var r, below := Dispatch(env, l, c, height, depth, fuel, policy), Below(env, l, c, height, depth, fuel, policy);
      var input := VmInput(l, c, height, fuel);
      && r.ok == below.ok && r.ledger == below.ledger && r.fuel == below.fuel
      && r.gas == (if below.ok then 500 + env.vm(input).gas + below.gas else 0)
      && r.trace == [Frame(depth, c, false, env.vm(input).gas, Some(input))] + below.trace
  {
  }

  /** Any other call leaves at most one frame, which queues nothing if it succeeds. */
  lemma LoneCall(env: Env, l: Ledger, c: Invocation, height: nat, depth: nat, fuel: nat, policy: Option<Policy>)
    requires !Spawning(env, l, c, height, depth, fuel, policy)
    ensures var r := Dispatch(env, l, c, height, depth, fuel, policy);
      && |r.trace| <= 1 && (r.trace == [] ==> !r.ok)
      && (r.trace != [] ==> r.trace[0].depth == depth && r.trace[0].call == c && (r.ok ==> r.trace[0].input.None?))
  {
  }

  lemma SpawningTree(env: Env, l: Ledger, c: Invocation, height: nat, depth: nat, fuel: nat, policy: Option<Policy>)
    requires Spawning(env, l, c, height, depth, fuel, policy)
    requires ManyTrees(env, c.target, env.vm(VmInput(l, c, height, fuel)).calls, depth + 1,
                       Below(env, l, c, height, depth, fuel, policy))
    ensures OneTree(env, c, depth, Dispatch(env, l, c, height, depth, fuel, policy))
  {
    SpawningCall(env, l, c, height, depth, fuel, policy);
    var input := VmInput(l, c, height, fuel);
    TreeUnder(env, c, Frame(depth, c, false, env.vm(input).gas, Some(input)), Below(env, l, c, height, depth, fuel, policy),
              Dispatch(env, l, c, height, depth, fuel, policy));
  }

  /** For every VM and every ledger, a call tree is a tree: each frame below the top is the
      next call that the nearest frame above it queued, made by that frame's contract and
      without value; a tree that succeeds has run every call that was queued. */
  lemma {:induction false} DispatchTree(env: Env, l: Ledger, c: Invocation, height: nat, depth: nat, fuel: nat,
                                        policy: Option<Policy>)
    ensures OneTree(env, c, depth, Dispatch(env, l, c, height, depth, fuel, policy))
    decreases DepthLeft(depth), 0
  {
    if Spawning(env, l, c, height, depth, fuel, policy) {
      var v := env.vm(VmInput(l, c, height, fuel));
      DispatchAllTree(env, Settles(env, l, c.target, v).0, c.target, v.calls, height, depth + 1,
                      if v.gas <= fuel then fuel - v.gas else 0, policy);
      SpawningTree(env, l, c, height, depth, fuel, policy);
    } else {
      LoneCall(env, l, c, height, depth, fuel, policy);
      LoneFrame(env, c, depth, Dispatch(env, l, c, height, depth, fuel, policy));
    }
  }

  lemma {:induction false} DispatchAllTree(env: Env, l: Ledger, caller: Id, queue: seq<Queued>, height: nat, depth: nat,
                                           fuel: nat, policy: Option<Policy>)
    ensures ManyTrees(env, caller, queue, depth, DispatchAll(env, l, caller, queue, height, depth, fuel, policy))
    decreases DepthLeft(depth), 1, |queue|
  {
    if queue != [] {
      var q := queue[0];
      var c := Invocation(caller, q.target, q.callMethod, q.args, 0);
      var r := Dispatch(env, l, c, height, depth, fuel, policy);
      DispatchTree(env, l, c, height, depth, fuel, policy);
      if r.ok {
        DispatchAllTree(env, r.ledger, caller, queue[1..], height, depth, r.fuel, policy);
        TreesJoin(env, caller, queue, depth, c, r, DispatchAll(env, r.ledger, caller, queue[1..], height, depth, r.fuel, policy),
                  DispatchAll(env, l, caller, queue, height, depth, fuel, policy));
      } else {
        FirstOfMany(env, caller, queue, depth, c, r, DispatchAll(env, l, caller, queue, height, depth, fuel, policy));
      }
    }
  }

  lemma {:induction false} TreesJoin(env: Env, caller: Id, queue: seq<Queued>, depth: nat, c: Invocation, r: Exec, rest: Exec, whole: Exec)
    requires queue != [] && IsQueued(c, caller, queue, 0)
    requires r.ok && OneTree(env, c, depth, r) && ManyTrees(env, caller, queue[1..], depth, rest)
    requires whole.trace == r.trace + rest.trace && whole.ok == rest.ok
    ensures ManyTrees(env, caller, queue, depth, whole)
  {
    NestedJoin(env, r.trace, rest.trace, depth);
    OrderJoin(r.trace, rest.trace, depth, caller, queue);
    QueuedJoin(env, r.trace, rest.trace);
  }

  lemma {:induction false} FirstOfMany(env: Env, caller: Id, queue: seq<Queued>, depth: nat, c: Invocation, r: Exec, whole: Exec)
    requires queue != [] && IsQueued(c, caller, queue, 0)
    requires OneTree(env, c, depth, r) && whole.trace == r.trace && !whole.ok
    ensures ManyTrees(env, caller, queue, depth, whole)
  {
  }
}
