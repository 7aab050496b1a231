/** The rollback journal and rewinding the chain in place. */
module Rollback {
  import opened Types
  import opened Storage
  import opened Engine
  import opened EngineInvariant
  import opened EngineSteps
  import opened EngineRuns

  // ---------- The journal ----------

  /** Bounded ring of undo entries, oldest first. */
  class RollbackJournal {
    var entries: seq<JournalEntry>
    const cap: nat

    constructor (cap: nat)
      ensures entries == [] && this.cap == if cap == 0 then 1 else cap
    {
      entries := [];
      this.cap := if cap == 0 then 1 else cap;
    }

    method Add(height: nat, revert: Delta)
      modifies this
      ensures entries == Record(old(entries), cap, height, revert)
    {
      if entries != [] && height != entries[|entries| - 1].height + 1 {
        entries := [];
      }
      entries := entries + [JournalEntry(height, revert)];
      ghost var grown := entries;
      while |entries| > cap
        invariant |entries| <= |grown| && entries == grown[|grown| - |entries|..]
        invariant |grown| <= cap ==> entries == grown
        invariant |grown| > cap ==> |entries| >= cap
      {
        entries := entries[1..];
      }
    }

    method MinRollbackTarget() returns (r: Option<nat>)
      ensures r == MinTarget(entries)
    {
      if entries == [] { r := None; } else { r := Some(SatSub(entries[0].height, 1)); }
    }

    method Clear()
      modifies this
      ensures entries == []
    {
      entries := [];
    }

    /** Drops the entries above a height from the back. */
    method TruncateTo(target: nat)
      modifies this
      ensures entries == UpTo(old(entries), target)
    {
      while entries != [] && entries[|entries| - 1].height > target
        invariant UpTo(entries, target) == UpTo(old(entries), target)
        decreases |entries|
      {
        entries := entries[..|entries| - 1];
      }
    }
  }

  /** Lowest height the journal can rewind to: one below its oldest entry. */
  function MinTarget(entries: seq<JournalEntry>): Option<nat> {
    if entries == [] then None else Some(SatSub(entries[0].height, 1))
  }

  function UpTo(entries: seq<JournalEntry>, target: nat): seq<JournalEntry> {
    if entries == [] || entries[|entries| - 1].height <= target then entries
    else UpTo(entries[..|entries| - 1], target)
  }

  // ---------- Rewinding ----------

  /** Applies undo entries newest first, down to the first one at or below `target`. */
  function Rewound(s: Store, entries: seq<JournalEntry>, target: nat): Store
    decreases |entries|
  {
    if entries == [] || entries[|entries| - 1].height <= target then s
    else Rewound(Apply(s, entries[|entries| - 1].revert), entries[..|entries| - 1], target)
  }

  function ChainUpTo(chain: seq<FinalizedBlock>, target: nat): seq<FinalizedBlock> {
    if chain == [] then []
    else
      var rest := ChainUpTo(chain[..|chain| - 1], target);
      var last := chain[|chain| - 1];
      if last.header.height <= target then rest + [last] else rest
  }

  predicate Admits(n: Node, target: nat) {
    target < Height(n) && MinTarget(n.journal).Some? && target >= MinTarget(n.journal).value
  }

  /** `rollback_to_height`: the outcome and the node afterwards. A failed root check
      leaves the store rewound and the chain untouched. */
  function RolledBack(cfg: Config, n: Node, target: nat, expected: Hash): (Node, bool) {
    if !Admits(n, target) then (n, false)
    else
      var s := Rewound(n.store, n.journal, target);
      if RootOf(cfg, s) != expected then (n.(store := s), false)
      else
        (n.(store := s[ChainMeta := Meta(target, target / EPOCH_LENGTH)],
            chain := ChainUpTo(n.chain, target),
            journal := UpTo(n.journal, target)), true)
  }

  /** Keys written back by the entries from `from` on. */
  function Touched(entries: seq<JournalEntry>, from: nat): set<Key> {
    set i, k | from <= i < |entries| && k in entries[i].revert :: k
  }

  /** Heights along a chain count up by one. */
  ghost predicate Counted(chain: seq<FinalizedBlock>) {
    forall i :: 0 <= i < |chain| ==> chain[i].header.height == chain[0].header.height + i
  }

  lemma ChainCounted(cfg: Config, chain: seq<FinalizedBlock>)
    requires Linked(cfg, chain)
    ensures Counted(chain)
  {
    forall i | 0 <= i < |chain| ensures chain[i].header.height == chain[0].header.height + i {
      HeightsCount(cfg, chain, 0, i);
    }
  }

  /** A chain with its states, and a journal entry for each of its newest blocks. */
  ghost predicate Covered(chain: seq<FinalizedBlock>, journal: seq<JournalEntry>, hist: seq<StateMap>) {
    Counted(chain) && |hist| == |chain| > |journal| && JournalOk(chain, journal, hist)
  }

  /** Position in the chain of the block below journal position `j`. */
  function Below(chain: seq<FinalizedBlock>, journal: seq<JournalEntry>, j: nat): nat
    requires j <= |journal| < |chain|
  {
    |chain| - |journal| - 1 + j
  }

  /** Rewinding from journal position `m` to position `from`: a key has the target
      state's value where an undone block wrote it, and otherwise its value from before
      the call, which no undone block has changed. */
  lemma {:induction false} RewoundAt(chain: seq<FinalizedBlock>, journal: seq<JournalEntry>, hist: seq<StateMap>,
                                     s: Store, from: nat, m: nat, q: Key)
    requires Covered(chain, journal, hist) && from <= m <= |journal| && q.State?
    ensures var k := Below(chain, journal, from);
      var r := Rewound(s, journal[..m], chain[k].header.height);
      if q in Touched(journal[..m], from) then Lookup(r, q) == Lookup(hist[k], q)
      else Lookup(r, q) == Lookup(s, q) && Lookup(hist[k], q) == Lookup(hist[Below(chain, journal, m)], q)
    decreases m
  {
    var k := Below(chain, journal, from);
    if m > 0 {
      var last := journal[m - 1];
      assert EntryOk(chain, hist, Below(chain, journal, m), last);
      assert journal[..m][..m - 1] == journal[..m - 1];
      if from < m {
        RewoundAt(chain, journal, hist, Apply(s, last.revert), from, m - 1, q);
        LookupApply(s, last.revert, q);
        TouchedTop(journal, from, m, q);
      }
    }
  }

  lemma TouchedTop(journal: seq<JournalEntry>, from: nat, m: nat, q: Key)
    requires from < m <= |journal|
    ensures q in Touched(journal[..m], from) <==> q in Touched(journal[..m - 1], from) || q in journal[m - 1].revert
  {
  }

  /** Keys on which the store is off the tip and which no undone block wrote. */
  ghost predicate Leftover(n: Node, tip: StateMap, from: nat, q: Key) {
    q.State? && Lookup(n.store, q) != Lookup(tip, q) && q !in Touched(n.journal, from)
  }

  /** Rewinding restores exactly the state after the target block if and only if every
      key that is off the tip was written by one of the undone blocks. */
  lemma RewoundIff(n: Node, hist: seq<StateMap>, from: nat)
    requires Covered(n.chain, n.journal, hist) && from <= |n.journal|
    requires StateOf(hist[Below(n.chain, n.journal, from)]) == hist[Below(n.chain, n.journal, from)]
    ensures var k := Below(n.chain, n.journal, from);
      StateOf(Rewound(n.store, n.journal, n.chain[k].header.height)) == hist[k]
      <==> forall q :: !Leftover(n, Tip(hist), from, q)
  {
    var k := Below(n.chain, n.journal, from);
    var r := Rewound(n.store, n.journal, n.chain[k].header.height);
    assert n.journal[..|n.journal|] == n.journal;
    forall q: Key | q.State?
      ensures Lookup(StateOf(r), q) == Lookup(hist[k], q) <==> !Leftover(n, Tip(hist), from, q)
    {
      RewoundAt(n.chain, n.journal, hist, n.store, from, |n.journal|, q);
    }
    if forall q :: !Leftover(n, Tip(hist), from, q) {
      forall q ensures Lookup(StateOf(r), q) == Lookup(hist[k], q) {
        if !q.State? { assert Lookup(StateOf(hist[k]), q) == None; }
      }
      StoreExtensional(StateOf(r), hist[k]);
    }
  }

  // ---------- Truncation ----------

  lemma {:induction false} ChainTruncates(chain: seq<FinalizedBlock>, k: nat, m: nat)
    requires Counted(chain) && k < |chain| && m <= |chain|
    ensures ChainUpTo(chain[..m], chain[k].header.height) == chain[..Min(m, k + 1)]
  {
    if m > 0 {
      assert chain[..m][..m - 1] == chain[..m - 1];
      ChainTruncates(chain, k, m - 1);
      assert chain[..m] == chain[..m - 1] + [chain[m - 1]];
    }
  }

  lemma {:induction false} JournalTruncates(chain: seq<FinalizedBlock>, journal: seq<JournalEntry>, hist: seq<StateMap>,
                                            from: nat, m: nat)
    requires Covered(chain, journal, hist) && from <= m <= |journal|
    ensures UpTo(journal[..m], chain[Below(chain, journal, from)].header.height) == journal[..from]
  {
    if m > 0 {
      assert EntryOk(chain, hist, Below(chain, journal, m), journal[m - 1]);
      assert journal[..m][..m - 1] == journal[..m - 1];
      if from < m { JournalTruncates(chain, journal, hist, from, m - 1); }
    }
  }

  /** The blocks up to the target, with the journal cut to match, are a chain as good
      as before. */
  lemma PrefixOk(cfg: Config, chain: seq<FinalizedBlock>, journal: seq<JournalEntry>, hist: seq<StateMap>, from: nat)
    requires ChainOk(cfg, chain, journal, hist) && |journal| < |chain| && from <= |journal|
    ensures var k := Below(chain, journal, from);
      ChainOk(cfg, chain[..k + 1], journal[..from], hist[..k + 1])
  {
    var k := Below(chain, journal, from);
    LinkedPrefix(cfg, chain, k + 1);
    HistoryPrefix(cfg, chain, hist, k + 1);
    JournalPrefix(chain, journal, hist, from);
  }

  lemma JournalPrefix(chain: seq<FinalizedBlock>, journal: seq<JournalEntry>, hist: seq<StateMap>, from: nat)
    requires |journal| < |chain| == |hist| && JournalOk(chain, journal, hist) && from <= |journal|
    ensures var k := Below(chain, journal, from);
      JournalOk(chain[..k + 1], journal[..from], hist[..k + 1])
  {
  }

  lemma LinkedPrefix(cfg: Config, chain: seq<FinalizedBlock>, m: nat)
    requires Linked(cfg, chain) && 0 < m <= |chain|
    ensures Linked(cfg, chain[..m])
  {
  }

  lemma HistoryPrefix(cfg: Config, chain: seq<FinalizedBlock>, hist: seq<StateMap>, m: nat)
    requires History(cfg, chain, hist) && m <= |chain|
    ensures History(cfg, chain[..m], hist[..m])
  {
  }

  // ---------- The rollback theorem ----------

  /** An admitted target is the height of the block below some journal entry. */
  lemma AdmittedBlock(cfg: Config, n: Node, hist: seq<StateMap>, target: nat) returns (from: nat)
    requires ChainOk(cfg, n.chain, n.journal, hist) && Admits(n, target)
    ensures Covered(n.chain, n.journal, hist)
    ensures from < |n.journal| && n.chain[Below(n.chain, n.journal, from)].header.height == target
    ensures target + (|n.journal| - from) == Height(n)
    ensures forall i :: from <= i < |n.journal| ==> n.journal[i].height == target + 1 + (i - from)
    ensures History(cfg, n.chain, hist)
  {
    ChainCounted(cfg, n.chain);
    assert EntryOk(n.chain, hist, Below(n.chain, n.journal, 1), n.journal[0]);
    from := |n.journal| - (Height(n) - target);
  }

  lemma RewoundFromTip(n: Node, hist: seq<StateMap>, from: nat)
    requires Covered(n.chain, n.journal, hist) && from <= |n.journal| && StateOf(n.store) == Tip(hist)
    requires StateOf(hist[Below(n.chain, n.journal, from)]) == hist[Below(n.chain, n.journal, from)]
    ensures var k := Below(n.chain, n.journal, from);
      StateOf(Rewound(n.store, n.journal, n.chain[k].header.height)) == hist[k]
  {
    forall q: Key ensures !Leftover(n, Tip(hist), from, q) {
      assert q.State? ==> Lookup(StateOf(n.store), q) == Lookup(n.store, q);
    }
    RewoundIff(n, hist, from);
  }

  /** Chain and journal are cut at the same block. */
  lemma BothCut(n: Node, hist: seq<StateMap>, from: nat)
    requires Covered(n.chain, n.journal, hist) && from <= |n.journal|
    ensures var k := Below(n.chain, n.journal, from); var target := n.chain[k].header.height;
      ChainUpTo(n.chain, target) == n.chain[..k + 1] && UpTo(n.journal, target) == n.journal[..from]
  {
    var k := Below(n.chain, n.journal, from);
    assert n.chain[..|n.chain|] == n.chain && n.journal[..|n.journal|] == n.journal;
    ChainTruncates(n.chain, k, |n.chain|);
    JournalTruncates(n.chain, n.journal, hist, from, |n.journal|);
  }

  /** With the store at the tip, rolling back to any admitted target succeeds: every
      state key has its value from right after the target block, and chain, journal
      and stored height all end there, ready for further blocks and rollbacks. */
  lemma RollbackRestores(cfg: Config, n: Node, hist: seq<StateMap>, target: nat) returns (from: nat)
    requires ChainOk(cfg, n.chain, n.journal, hist) && StateOf(n.store) == Tip(hist) && Admits(n, target)
    ensures from < |n.journal| < |n.chain| && n.chain[Below(n.chain, n.journal, from)].header.height == target
    ensures var k := Below(n.chain, n.journal, from);
      var (m, ok) := RolledBack(cfg, n, target, n.chain[k].resultRoot);
      && ok && StateOf(m.store) == hist[k] && MetaOk(m)
      && m.chain == n.chain[..k + 1] && m.journal == n.journal[..from]
      && ChainOk(cfg, m.chain, m.journal, hist[..k + 1])
  {
    from := AdmittedBlock(cfg, n, hist, target);
    RewoundFromTip(n, hist, from);
    BothCut(n, hist, from);
    PrefixOk(cfg, n.chain, n.journal, hist, from);
    BookkeepingPut(Rewound(n.store, n.journal, target), ChainMeta, Meta(target, target / EPOCH_LENGTH));
  }

  /** Off the tip (an eager commit is pending) the root check passes if and only if
      every key that is off the tip was written by one of the undone blocks. */
  lemma RollbackSucceedsIff(cfg: Config, n: Node, hist: seq<StateMap>, target: nat) returns (from: nat)
    requires RootInjective(cfg) && ChainOk(cfg, n.chain, n.journal, hist) && Admits(n, target)
    ensures from < |n.journal| < |n.chain| && n.chain[Below(n.chain, n.journal, from)].header.height == target
    ensures RolledBack(cfg, n, target, n.chain[Below(n.chain, n.journal, from)].resultRoot).1 <==>
            forall q :: !Leftover(n, Tip(hist), from, q)
  {
    from := AdmittedBlock(cfg, n, hist, target);
    RewoundIff(n, hist, from);
  }

  /** The failing input: a node on its tip proposes a block that changes a state key which
      no block in the journal wrote. Until that block is undone or finalized, rolling back
      fails for every admitted target. */
  lemma PendingCommitBlocks(cfg: Config, n: Node, hist: seq<StateMap>, ops: Ops, q: Key, target: nat) returns (from: nat)
    requires RootInjective(cfg) && ChainOk(cfg, n.chain, n.journal, hist) && StateOf(n.store) == Tip(hist)
    requires q.State? && q !in Touched(n.journal, 0)
    requires Lookup(Apply(n.store, cfg.stage(n.store, ops, Next(n))), q) != Lookup(n.store, q)
    requires Admits(Propose(cfg, n, ops), target)
    ensures from < |n.journal| < |n.chain| && n.chain[Below(n.chain, n.journal, from)].header.height == target
    ensures !RolledBack(cfg, Propose(cfg, n, ops), target, n.chain[Below(n.chain, n.journal, from)].resultRoot).1
  {
    var p := Propose(cfg, n, ops);
    from := RollbackSucceedsIff(cfg, p, hist, target);
    ProposedValue(cfg, n, ops, q);
    assert Lookup(Tip(hist), q) == Lookup(n.store, q) by { assert Lookup(StateOf(n.store), q) == Lookup(n.store, q); }
    assert Leftover(p, Tip(hist), from, q);
  }

  lemma ProposedValue(cfg: Config, n: Node, ops: Ops, q: Key)
    requires q.State?
    ensures Lookup(Propose(cfg, n, ops).store, q) == Lookup(Apply(n.store, cfg.stage(n.store, ops, Next(n))), q)
  {
    var changes := cfg.stage(n.store, ops, Next(n));
    EagerCommitAt(n.store, Next(n), changes, q);
    LookupApply(n.store, changes, q);
  }

  /** Exactly the heights below the tip that the journal reaches are admitted, which is one
      for each entry it holds. */
  lemma AdmitsIff(cfg: Config, n: Node, hist: seq<StateMap>, target: nat)
    requires ChainOk(cfg, n.chain, n.journal, hist)
    ensures Admits(n, target) <==> Height(n) - |n.journal| <= target < Height(n)
  {
    if n.journal != [] {
      ChainCounted(cfg, n.chain);
      FirstEntry(n.chain, n.journal, hist);
    }
  }

  lemma FirstEntry(chain: seq<FinalizedBlock>, journal: seq<JournalEntry>, hist: seq<StateMap>)
    requires Counted(chain) && JournalOk(chain, journal, hist) && journal != []
    ensures |journal| < |chain| && journal[0].height + |journal| == chain[|chain| - 1].header.height + 1
  {
    assert EntryOk(chain, hist, |chain| - |journal| + 0, journal[0]);
  }

  /** After a rollback a restart reads the target's height and epoch. */
  lemma RolledBackMeta(cfg: Config, n: Node, target: nat, expected: Hash)
    requires RolledBack(cfg, n, target, expected).1
    ensures var m := RolledBack(cfg, n, target, expected).0;
      Lookup(m.store, ChainMeta) == Some(Meta(target, target / 100)) && RootOf(cfg, m.store) == expected
  {
    BookkeepingPut(Rewound(n.store, n.journal, target), ChainMeta, Meta(target, target / EPOCH_LENGTH));
  }
}
