/** Restart after a crash: replaying the durable undo records newest first gives back
    the finalized store. */
module Recovery {
  import opened Types
  import opened Storage
  import opened Engine
  import opened EngineInvariant
  import opened EngineSteps
  import opened EngineRuns

  // ---------- A stack of eager commits ----------

  datatype EagerBlock = EagerBlock(height: nat, changes: Changes)

  /** The store after committing these blocks eagerly, oldest first. */
  function Stacked(s: Store, blocks: seq<EagerBlock>): Store {
    if blocks == [] then s
    else
      var top := blocks[|blocks| - 1];
      EagerCommit(Stacked(s, blocks[..|blocks| - 1]), top.height, top.changes)
  }

  ghost predicate AscendingAbove(blocks: seq<EagerBlock>, tip: nat) {
    && (forall i :: 0 <= i < |blocks| ==> blocks[i].height > tip)
    && (forall i, j :: 0 <= i < j < |blocks| ==> blocks[i].height < blocks[j].height)
  }

  ghost predicate NoRecordAbove(s: Store, tip: nat) {
    forall h: nat :: h > tip ==> EagerRevert(h) !in s
  }

  function Heights(blocks: seq<EagerBlock>): set<nat> {
    set i | 0 <= i < |blocks| :: blocks[i].height
  }

  /** An eager commit and its undo cancel out on the whole store. */
  lemma EagerUndoExact(s: Store, h: nat, changes: Changes)
    requires EagerRevert(h) !in s
    ensures Apply(EagerCommit(s, h, changes), EagerUndo(s, h, changes)) == s
  {
    var r := Apply(EagerCommit(s, h, changes), EagerUndo(s, h, changes));
    forall k ensures Lookup(r, k) == Lookup(s, k) {
      LookupApply(EagerCommit(s, h, changes), EagerUndo(s, h, changes), k);
      EagerCommitAt(s, h, changes, k);
    }
    StoreExtensional(r, s);
  }

  /** An eager commit writes the record of its own height and no other. */
  lemma EagerCommitRecords(s: Store, h: nat, changes: Changes, g: nat)
    ensures Lookup(EagerCommit(s, h, changes), EagerRevert(g)) ==
            if g == h then Some(Undo(EagerUndo(s, h, changes))) else Lookup(s, EagerRevert(g))
  {
  }

  lemma HeightsTop(blocks: seq<EagerBlock>)
    requires blocks != []
    ensures Heights(blocks) == Heights(blocks[..|blocks| - 1]) + {blocks[|blocks| - 1].height}
  {
  }

  lemma {:induction false} StackedRecords(s: Store, blocks: seq<EagerBlock>, tip: nat, g: nat)
    requires AscendingAbove(blocks, tip) && NoRecordAbove(s, tip) && g > tip
    ensures EagerRevert(g) in Stacked(s, blocks) <==> g in Heights(blocks)
    ensures g in Heights(blocks) ==> Stacked(s, blocks)[EagerRevert(g)].Undo?
  {
    if blocks != [] {
      var lower, top := blocks[..|blocks| - 1], blocks[|blocks| - 1];
      StackedRecords(s, lower, tip, g);
      HeightsTop(blocks);
      EagerCommitRecords(Stacked(s, lower), top.height, top.changes, g);
    }
  }

  lemma StackedHeights(s: Store, blocks: seq<EagerBlock>, tip: nat)
    requires AscendingAbove(blocks, tip) && NoRecordAbove(s, tip)
    ensures RecordHeights(Stacked(s, blocks), tip) == Heights(blocks)
  {
    var t := Stacked(s, blocks);
    forall g ensures g in RecordHeights(t, tip) <==> g in Heights(blocks) {
      if g > tip { StackedRecords(s, blocks, tip, g); }
      if g in RecordHeights(t, tip) { assert EagerRevert(g) in t; }
      if g in Heights(blocks) { assert EagerRevert(g) in t && t[EagerRevert(g)].Undo?; }
    }
  }

  lemma {:induction false} ReplayReads(s: Store, a: Store, b: Store, hs: set<nat>)
    requires forall h :: h in hs ==> EagerRevert(h) in a && EagerRevert(h) in b
    requires forall h :: h in hs ==> a[EagerRevert(h)] == b[EagerRevert(h)] && a[EagerRevert(h)].Undo?
    ensures Replay(s, a, hs) == Replay(s, b, hs)
    decreases hs
  {
    if hs != {} {
      var h := Newest(hs);
      ReplayReads(Apply(s, a[EagerRevert(h)].delta), a, b, hs - {h});
    }
  }

  lemma NewestIsTop(blocks: seq<EagerBlock>, tip: nat)
    requires blocks != [] && AscendingAbove(blocks, tip)
    ensures var lower, top := blocks[..|blocks| - 1], blocks[|blocks| - 1];
      && top.height in Heights(blocks) && Newest(Heights(blocks)) == top.height
      && Heights(blocks) - {top.height} == Heights(lower) && top.height !in Heights(lower)
  {
    HeightsTop(blocks);
  }

  /** The newest record takes its block back and leaves the older records. */
  lemma TopUndone(s: Store, blocks: seq<EagerBlock>, tip: nat)
    requires blocks != [] && AscendingAbove(blocks, tip) && NoRecordAbove(s, tip)
    ensures var lower, top := blocks[..|blocks| - 1], blocks[|blocks| - 1];
      var below, full, r := Stacked(s, lower), Stacked(s, blocks), EagerRevert(top.height);
      && r in full && full[r].Undo? && Apply(full, full[r].delta) == below
      && forall g :: g in Heights(lower) ==>
           var q := EagerRevert(g); q in below && q in full && below[q].Undo? && full[q] == below[q]
  {
    var lower, top := blocks[..|blocks| - 1], blocks[|blocks| - 1];
    var below := Stacked(s, lower);
    NewestIsTop(blocks, tip);
    StackedRecords(s, lower, tip, top.height);
    EagerUndoExact(below, top.height, top.changes);
    EagerCommitRecords(below, top.height, top.changes, top.height);
    forall g | g in Heights(lower)
      ensures var q, full := EagerRevert(g), Stacked(s, blocks);
        q in below && q in full && below[q].Undo? && full[q] == below[q]
    {
      StackedRecords(s, lower, tip, g);
      EagerCommitRecords(below, top.height, top.changes, g);
    }
  }

  ghost predicate Holds(s: Store, hs: set<nat>) {
    forall g :: g in hs ==> EagerRevert(g) in s && s[EagerRevert(g)].Undo?
  }

  lemma ReplayStep(s: Store, records: Store, hs: set<nat>, h: nat, rest: set<nat>)
    requires Holds(records, hs) && h in hs && Newest(hs) == h && rest == hs - {h}
    ensures Replay(s, records, hs) == Replay(Apply(s, records[EagerRevert(h)].delta), records, rest)
  {
  }

  /** Replaying a stack starts with its top block and goes on with the stack below. */
  lemma ReplayPeels(s: Store, blocks: seq<EagerBlock>, tip: nat)
    requires blocks != [] && AscendingAbove(blocks, tip) && NoRecordAbove(s, tip) && Holds(Stacked(s, blocks), Heights(blocks))
    ensures var lower := blocks[..|blocks| - 1]; var below, full := Stacked(s, lower), Stacked(s, blocks);
      Holds(below, Heights(lower)) && Replay(full, full, Heights(blocks)) == Replay(below, below, Heights(lower))
  {
    var lower, top := blocks[..|blocks| - 1], blocks[|blocks| - 1];
    var below, full := Stacked(s, lower), Stacked(s, blocks);
    NewestIsTop(blocks, tip);
    TopUndone(s, blocks, tip);
    ReplayStep(full, full, Heights(blocks), top.height, Heights(lower));
    ReplayReads(below, full, below, Heights(lower));
  }

  lemma {:induction false} ReplayStack(s: Store, blocks: seq<EagerBlock>, tip: nat)
    requires AscendingAbove(blocks, tip) && NoRecordAbove(s, tip) && Holds(Stacked(s, blocks), Heights(blocks))
    ensures Replay(Stacked(s, blocks), Stacked(s, blocks), Heights(blocks)) == s
  {
    if blocks == [] {
      assert Heights(blocks) == {};
    } else {
      var lower := blocks[..|blocks| - 1];
      assert AscendingAbove(lower, tip);
      ReplayPeels(s, blocks, tip);
      ReplayStack(s, lower, tip);
    }
  }

  /** Crash recovery: whatever eagerly committed, unfinalized blocks lie above the tip,
      boot gives back exactly the finalized store. */
  lemma RecoveryExact(s: Store, blocks: seq<EagerBlock>, tip: nat)
    requires AscendingAbove(blocks, tip) && NoRecordAbove(s, tip)
    ensures Repair(Stacked(s, blocks), tip) == s
  {
    StackedHeights(s, blocks, tip);
    forall g | g in Heights(blocks)
      ensures EagerRevert(g) in Stacked(s, blocks) && Stacked(s, blocks)[EagerRevert(g)].Undo?
    {
      StackedRecords(s, blocks, tip, g);
    }
    ReplayStack(s, blocks, tip);
  }

  // ---------- Crash between two steps of a live run ----------

  /** The persisted height and epoch, zero when there is none. */
  function StoredTip(s: Store): (nat, nat) {
    if ChainMeta in s && s[ChainMeta].Meta? then (s[ChainMeta].height, s[ChainMeta].epoch) else (0, 0)
  }

  /** What boot makes of a store: the persisted height decides which records to replay. */
  ghost function Boot(s: Store): Store { Repair(s, StoredTip(s).0) }

  /** A node that stops in any state of a live run boots on exactly its finalized tip,
      with no record left above it. */
  lemma RestartRecovers(cfg: Config, n: Node, hist: seq<StateMap>)
    requires Inv(cfg, n, hist)
    ensures StateOf(Boot(n.store)) == Tip(hist)
    ensures NoRecordAbove(Boot(n.store), Height(n))
  {
    if RecordHeights(n.store, Height(n)) == {} {
      NoRecord(n, Tip(hist));
    } else {
      OneRecord(cfg, n, hist);
      UndoReachesTip(n, Tip(hist), n.store[EagerRevert(Next(n))].delta);
    }
  }

  /** A live node has at most one record to replay, the one of its next height. */
  lemma OneRecord(cfg: Config, n: Node, hist: seq<StateMap>)
    requires Inv(cfg, n, hist) && RecordHeights(n.store, Height(n)) != {}
    ensures EagerRevert(Next(n)) in n.store && n.store[EagerRevert(Next(n))].Undo?
    ensures UndoOk(n, Tip(hist), n.store[EagerRevert(Next(n))].delta)
    ensures Boot(n.store) == Apply(n.store, n.store[EagerRevert(Next(n))].delta)
  {
    var hs := RecordHeights(n.store, Height(n));
    forall h | h in hs ensures h == Next(n) { assert EagerRevert(h) in n.store; }
    assert hs == {Next(n)} && Newest(hs) == Next(n) && hs - {Next(n)} == {};
    assert Boot(n.store) == Replay(Apply(n.store, n.store[EagerRevert(Next(n))].delta), n.store, {});
  }

  /** A freshly booted node: the repaired store, and a placeholder block that carries
      the stored height and the store's own root. */
  ghost function BootNode(cfg: Config, s: Store, roster: Roster): Node {
    var (h, epoch) := StoredTip(s);
    var root := RootOf(cfg, Boot(s));
    var chain := if h == 0 then [] else [FinalizedBlock(Header(h, epoch, 0, root, 0, 0, 0, 0), root, {}, [])];
    Node(Boot(s), chain, map[], map[], [], map[], [], roster, false, false)
  }

  lemma BootKeepsMeta(cfg: Config, n: Node, hist: seq<StateMap>)
    requires Inv(cfg, n, hist)
    ensures Lookup(Boot(n.store), ChainMeta) == Lookup(n.store, ChainMeta)
  {
    if RecordHeights(n.store, Height(n)) != {} {
      OneRecord(cfg, n, hist);
      UndoReachesTip(n, Tip(hist), n.store[EagerRevert(Next(n))].delta);
    }
  }

  /** A node that stops and boots again is back in the invariant, on the same tip, so
      everything proved of live runs goes on holding. */
  lemma RestartInv(cfg: Config, n: Node, hist: seq<StateMap>, roster: Roster)
    requires Inv(cfg, n, hist) && Height(n) > 0
    ensures Inv(cfg, BootNode(cfg, n.store, roster), [Tip(hist)])
    ensures Height(BootNode(cfg, n.store, roster)) == Height(n)
  {
    var b := BootNode(cfg, n.store, roster);
    RestartRecovers(cfg, n, hist);
    BootKeepsMeta(cfg, n, hist);
    assert RecordsOk(b, Tip(hist));
    CleanInv(cfg, b, [Tip(hist)]);
  }

  /** Any store with a height and no record above it boots into the invariant: this is
      where live runs start. */
  lemma BootStarts(cfg: Config, s: Store, roster: Roster)
    requires StoredTip(s).0 > 0 && NoRecordAbove(s, StoredTip(s).0)
    ensures Inv(cfg, BootNode(cfg, s, roster), [StateOf(s)])
  {
    assert RecordHeights(s, StoredTip(s).0) == {} by {
      forall k | k in s && k.EagerRevert? ensures k.height <= StoredTip(s).0 { assert EagerRevert(k.height) in s; }
    }
    var b := BootNode(cfg, s, roster);
    assert Boot(s) == s;
    assert RecordsOk(b, StateOf(s));
    CleanInv(cfg, b, [StateOf(s)]);
  }

  lemma NoRecord(n: Node, tip: StateMap)
    requires RecordsOk(n, tip) && DriftOk(n, tip) && RecordHeights(n.store, Height(n)) == {}
    ensures StateOf(n.store) == tip && NoRecordAbove(n.store, Height(n))
  {
    forall h: nat | h > Height(n) ensures EagerRevert(h) !in n.store {
      assert EagerRevert(h) in n.store ==> h in RecordHeights(n.store, Height(n));
    }
  }

  lemma RunRestarts(cfg: Config, states: seq<Node>, events: seq<Event>, hist: seq<StateMap>, i: nat)
    requires RootInjective(cfg) && SafeRun(cfg, states, events) && Inv(cfg, states[0], hist) && i < |states|
    ensures states[i].chain != [] && RootOf(cfg, Boot(states[i].store)) == states[i].chain[|states[i].chain| - 1].resultRoot
    ensures NoRecordAbove(Boot(states[i].store), Height(states[i]))
  {
    var h := RunInvariant(cfg, states, events, hist, i);
    RestartRecovers(cfg, states[i], h);
  }

  /** Finalizing drops the undo record before it writes the new height. A crash
      between the two writes boots on the tip exactly when the block had no effect. */
  lemma CrashBetweenWrites(cfg: Config, n: Node, hist: seq<StateMap>)
    requires Inv(cfg, n, hist)
    ensures StateOf(Boot(n.store - {EagerRevert(Next(n))})) == Tip(hist) <==> StateOf(n.store) == Tip(hist)
  {
    var s := n.store - {EagerRevert(Next(n))};
    BookkeepingDrop(n.store, EagerRevert(Next(n)));
    assert RecordHeights(s, Height(n)) == {} by {
      forall k | k in s && k.EagerRevert? ensures k.height <= Height(n) {
        assert EagerRevert(k.height) in n.store && k.height != Next(n);
      }
    }
  }

  /** A peer block is committed without an undo record, before the new height is stored. A
      crash in between boots on the tip exactly when a record still held for the height
      covers every state key the block changed; without one, when it had no effect. */
  lemma CrashAfterPeerCommit(cfg: Config, n: Node, hist: seq<StateMap>, changes: Changes)
    requires Inv(cfg, n, hist) && StateOf(n.store) == Tip(hist)
    ensures StateOf(Boot(Apply(n.store, changes))) == Tip(hist) <==>
            forall q: Key :: q.State? && Lookup(Apply(n.store, changes), q) != Lookup(n.store, q) ==> Covered(n, q)
  {
    var s := Apply(n.store, changes);
    forall q: Key | q.State?
      ensures Lookup(StateOf(Boot(s)), q) == Lookup(Tip(hist), q)
              <==> (Lookup(s, q) != Lookup(n.store, q) ==> Covered(n, q))
    {
      BootsKey(cfg, n, hist, changes, q);
    }
    StateOfState(Boot(s));
    StateOfState(n.store);
    SameState(StateOf(Boot(s)), Tip(hist));
  }

  /** The same for one state key. */
  lemma BootsKey(cfg: Config, n: Node, hist: seq<StateMap>, changes: Changes, q: Key)
    requires Inv(cfg, n, hist) && StateOf(n.store) == Tip(hist) && q.State?
    ensures var s := Apply(n.store, changes);
      Lookup(StateOf(Boot(s)), q) == Lookup(Tip(hist), q) <==> (Lookup(s, q) != Lookup(n.store, q) ==> Covered(n, q))
  {
    var s, r := Apply(n.store, changes), EagerRevert(Next(n));
    StagedBookkeeping(n.store, changes);
    LookupApply(n.store, changes, r);
    if r in n.store {
      BootsByRecord(n, s, n.store[r].delta);
      LookupApply(s, n.store[r].delta, q);
    } else {
      BootsUntouched(n, s);
    }
    assert Lookup(StateOf(n.store), q) == Lookup(n.store, q);
  }

  /** The record held for the next height would put this key back. */
  ghost predicate Covered(n: Node, q: Key) {
    var r := EagerRevert(Next(n));
    r in n.store && n.store[r].Undo? && q in n.store[r].delta
  }

  lemma SameState(a: StateMap, b: StateMap)
    requires StateOf(a) == a && StateOf(b) == b
    ensures a == b <==> forall q: Key :: q.State? ==> Lookup(a, q) == Lookup(b, q)
  {
    if forall q: Key :: q.State? ==> Lookup(a, q) == Lookup(b, q) { StateExtensional(a, b); }
  }

  lemma BootsUntouched(n: Node, s: Store)
    requires MetaOk(n) && Lookup(s, ChainMeta) == Lookup(n.store, ChainMeta)
    requires forall h: nat :: EagerRevert(h) in s ==> h <= Height(n)
    ensures Boot(s) == s
  {
    assert RecordHeights(s, Height(n)) == {} by {
      forall k | k in s && k.EagerRevert? ensures k.height <= Height(n) { assert EagerRevert(k.height) in s; }
    }
  }

  lemma BootsByRecord(n: Node, s: Store, d: Delta)
    requires MetaOk(n) && Lookup(s, ChainMeta) == Lookup(n.store, ChainMeta)
    requires forall h: nat :: EagerRevert(h) in s ==> h <= Next(n)
    requires Lookup(s, EagerRevert(Next(n))) == Some(Undo(d))
    ensures Boot(s) == Apply(s, d)
  {
    var hs := RecordHeights(s, Height(n));
    forall h | h in hs ensures h == Next(n) { assert EagerRevert(h) in s; }
    assert EagerRevert(Next(n)) in s && Next(n) in hs;
    assert hs == {Next(n)} && Newest(hs) == Next(n) && hs - {Next(n)} == {};
    assert Boot(s) == Replay(Apply(s, d), s, {});
  }

  // ---------- The boot procedure ----------

  method PickNewest(hs: set<nat>) returns (m: nat)
    requires hs != {}
    ensures m == Newest(hs)
  {
    m :| m in hs;
    var left := hs - {m};
    while left != {}
      invariant left <= hs && m in hs
      invariant forall x :: x in hs && x !in left ==> x <= m
      decreases left
    {
      var x :| x in left;
      if x > m { m := x; }
      left := left - {x};
    }
  }

  /** `apply_durable_reverts_above`: collect the readable records above the tip, apply
      them newest first, and report whether there was any. */
  method ApplyDurableReverts(s: Store, tip: nat) returns (r: Store, applied: bool)
    ensures r == Repair(s, tip)
    ensures applied <==> RecordHeights(s, tip) != {}
  {
    var pending: map<nat, Delta> := map[];
    var left := s.Keys;
    while left != {}
      invariant left <= s.Keys
      invariant forall h :: h in pending <==> h in RecordHeights(s, tip) && EagerRevert(h) !in left
      invariant forall h :: h in pending ==> Undo(pending[h]) == s[EagerRevert(h)]
      decreases left
    {
      var k :| k in left;
      if k.EagerRevert? && k.height > tip && s[k].Undo? {
        pending := pending[k.height := s[k].delta];
      }
      left := left - {k};
    }
    assert pending.Keys == RecordHeights(s, tip);
    applied := pending != map[];
    r := s;
    var todo := pending.Keys;
    while todo != {}
      invariant todo <= pending.Keys
      invariant Replay(r, s, todo) == Repair(s, tip)
      decreases todo
    {
      var h := PickNewest(todo);
      r := ApplyBatch(r, pending[h]);
      todo := todo - {h};
    }
  }
}
