/** What every live step of a node keeps: the store is the finalized tip's state, or
    that state plus one own executed candidate whose undo is held in memory and on
    disk; every finalized block is a correct execution on its parent; and the journal
    rewinds the chain block by block. */
module EngineInvariant {
  import opened Types
  import opened Storage
  import opened Validators
  import opened Engine

  // ---------- Assumption: collision-free commitments ----------

  /** State roots determine the state: some function reads the state back. */
  ghost predicate RootInjective(cfg: Config) {
    forall s :: cfg.preimage(cfg.root(s)) == s
  }

  // ---------- The invariant, clause by clause ----------

  /** Executing `ops` at height `h` on some store with state `t` gives state `t'`. */
  ghost predicate Executes(cfg: Config, t: StateMap, ops: Ops, h: nat, t': StateMap) {
    exists s: Store :: StateOf(s) == t && StateOf(Apply(s, cfg.stage(s, ops, h))) == t'
  }

  predicate ChildOf(cfg: Config, parent: Header, child: Header) {
    child.height == parent.height + 1 && child.parentHash == cfg.hash(parent)
  }

  ghost predicate Linked(cfg: Config, chain: seq<FinalizedBlock>) {
    && chain != []
    && forall i, j :: 0 <= i < j < |chain| && j == i + 1 ==> ChildOf(cfg, chain[i].header, chain[j].header)
  }

  /** `hist[i]` is the state right after block `i`: each block past the first is a
      correct execution on its parent's state, with the root its header claims. */
  ghost predicate History(cfg: Config, chain: seq<FinalizedBlock>, hist: seq<StateMap>) {
    && |hist| == |chain|
    && (forall i :: 0 <= i < |chain| ==> cfg.root(hist[i]) == chain[i].resultRoot && StateOf(hist[i]) == hist[i])
    && (forall i :: 0 < i < |chain| ==> chain[i].header.stateRoot == chain[i].resultRoot)
    && (forall i, j :: 0 <= i < j < |chain| && j == i + 1 ==>
          Executes(cfg, hist[i], chain[j].ops, chain[j].header.height, hist[j]))
  }

  /** A journal entry for block `i`: it takes the state after the block back to the
      state before it. */
  ghost predicate EntryOk(chain: seq<FinalizedBlock>, hist: seq<StateMap>, i: nat, entry: JournalEntry) {
    && |hist| == |chain| && 0 < i < |chain|
    && entry.height == chain[i].header.height
    && Recalls(entry.revert, hist[i - 1])
    && AgreeOff(hist[i], hist[i - 1], entry.revert)
  }

  /** The journal covers the newest blocks without a gap, within its cap. */
  ghost predicate JournalOk(chain: seq<FinalizedBlock>, journal: seq<JournalEntry>, hist: seq<StateMap>) {
    && |journal| <= JOURNAL_CAP && (|journal| == 0 || |journal| < |chain|)
    && forall j :: 0 <= j < |journal| ==> EntryOk(chain, hist, |chain| - |journal| + j, journal[j])
  }

  /** A candidate belongs at the next height and chains to the tip. */
  ghost predicate CandidateOk(cfg: Config, n: Node, x: Hash, pb: Pending)
    requires n.chain != []
  {
    && cfg.hash(pb.header) == x
    && pb.header.height == Next(n)
    && pb.header.parentHash == cfg.hash(n.chain[|n.chain| - 1].header)
  }

  /** An executed candidate accounts for the whole difference between the store and
      the tip: the store is what it produced, and its undo leads back. */
  ghost predicate ExecutionOk(cfg: Config, n: Node, tip: StateMap, pb: Pending)
    requires pb.execution.Some?
  {
    var e := pb.execution.value;
    && Executes(cfg, tip, pb.ops, Next(n), StateOf(n.store))
    && e.root == pb.header.stateRoot == RootOf(cfg, n.store)
    && UndoOk(n, tip, e.revert)
  }

  /** `d` takes the store back to the tip and removes the next height's record. */
  ghost predicate UndoOk(n: Node, tip: StateMap, d: Delta) {
    && Recalls(d, tip)
    && AgreeOff(StateOf(n.store), tip, d)
    && EagerRevert(Next(n)) in d && d[EagerRevert(Next(n))] == None
    && (forall k :: k in d ==> k.State? || k.Aux? || k == EagerRevert(Next(n)))
  }

  /** Durable records above the tip are at the next height and lead back to the tip. */
  ghost predicate RecordsOk(n: Node, tip: StateMap) {
    forall h: nat :: EagerRevert(h) in n.store && h > Height(n) ==>
      && h == Next(n)
      && n.store[EagerRevert(h)].Undo?
      && UndoOk(n, tip, n.store[EagerRevert(h)].delta)
  }

  ghost predicate Accounted(cfg: Config, n: Node, tip: StateMap, x: Hash, pb: Pending)
    requires n.chain != []
  {
    CandidateOk(cfg, n, x, pb) && (pb.execution.Some? ==> ExecutionOk(cfg, n, tip, pb))
  }

  ghost predicate CandidatesOk(cfg: Config, n: Node, tip: StateMap)
    requires n.chain != []
  {
    && n.candidates.Keys <= {Next(n)}
    && (forall x :: x in CandidatesAt(n, Next(n)) ==> Accounted(cfg, n, tip, x, CandidatesAt(n, Next(n))[x]))
  }

  predicate IsExecuted(n: Node, x: Hash) {
    x in CandidatesAt(n, Next(n)) && CandidatesAt(n, Next(n))[x].execution.Some?
  }

  /** Off the tip there is exactly one executed candidate, and its undo is on disk. */
  ghost predicate DriftOk(n: Node, tip: StateMap) {
    StateOf(n.store) != tip ==>
      exists x :: && IsExecuted(n, x)
                  && (forall y :: IsExecuted(n, y) ==> y == x)
                  && EagerRevert(Next(n)) in n.store
                  && n.store[EagerRevert(Next(n))] ==
                     Undo(CandidatesAt(n, Next(n))[x].execution.value.revert)
  }

  /** The finalized part: chain, states and journal. */
  ghost predicate ChainOk(cfg: Config, chain: seq<FinalizedBlock>, journal: seq<JournalEntry>, hist: seq<StateMap>) {
    Linked(cfg, chain) && History(cfg, chain, hist) && JournalOk(chain, journal, hist)
  }

  /** The height a restart would read back is the chain's. */
  predicate MetaOk(n: Node) {
    ChainMeta in n.store && n.store[ChainMeta].Meta? && n.store[ChainMeta].height == Height(n)
  }

  ghost predicate Inv(cfg: Config, n: Node, hist: seq<StateMap>) {
    && ChainOk(cfg, n.chain, n.journal, hist)
    && CandidatesOk(cfg, n, hist[|hist| - 1])
    && DriftOk(n, hist[|hist| - 1])
    && RecordsOk(n, hist[|hist| - 1])
    && MetaOk(n)
    && n.invalid.Keys <= {Next(n)}
    && !n.needsResync
  }

  function Tip(hist: seq<StateMap>): StateMap
    requires hist != []
  {
    hist[|hist| - 1]
  }

  /** A node on its tip, holding no candidate and no record above it. */
  lemma CleanInv(cfg: Config, n: Node, hist: seq<StateMap>)
    requires ChainOk(cfg, n.chain, n.journal, hist) && StateOf(n.store) == Tip(hist)
    requires n.candidates == map[] && n.invalid.Keys <= {Next(n)} && !n.needsResync
    requires RecordsOk(n, Tip(hist)) && MetaOk(n)
    ensures Inv(cfg, n, hist)
  {
  }

  // ---------- Restoring ----------

  lemma UndoReachesTip(n: Node, tip: StateMap, d: Delta)
    requires UndoOk(n, tip, d) && StateOf(tip) == tip
    ensures StateOf(Apply(n.store, d)) == tip
    ensures forall h: nat :: EagerRevert(h) in Apply(n.store, d) ==> h != Next(n) && EagerRevert(h) in n.store
    ensures Lookup(Apply(n.store, d), ChainMeta) == Lookup(n.store, ChainMeta)
  {
  }

  lemma ExecutedSingle(cfg: Config, n: Node, tip: StateMap, order: seq<(nat, Hash)>)
    returns (x: Hash)
    requires n.chain != [] && CandidatesOk(cfg, n, tip) && DriftOk(n, tip)
    requires StateOf(n.store) != tip && UndoOrder(n, order)
    ensures IsExecuted(n, x) && order == [(Next(n), x)]
  {
    x :| IsExecuted(n, x) && forall y :: IsExecuted(n, y) ==> y == x;
    ExecutedOnly(n, x);
    assert order[0] in ExecutedAt(n);
  }

  lemma ExecutedOnly(n: Node, x: Hash)
    requires n.candidates.Keys <= {Next(n)} && IsExecuted(n, x) && forall y :: IsExecuted(n, y) ==> y == x
    ensures ExecutedAt(n) == {(Next(n), x)}
  {
    forall p | p in ExecutedAt(n) ensures p == (Next(n), x) {
      assert p.0 == Next(n) && p.1 in n.candidates[p.0];
      assert IsExecuted(n, p.1);
    }
  }

  /** Restoring is the identity on the tip, and otherwise undoes the one executed candidate. */
  lemma RestoredNode(cfg: Config, n: Node, hist: seq<StateMap>, m: Node)
    requires RootInjective(cfg) && Inv(cfg, n, hist) && Restores(cfg, n, m)
    ensures StateOf(n.store) == Tip(hist) ==> m == n
    ensures StateOf(n.store) != Tip(hist) ==>
              exists d :: UndoOk(n, Tip(hist), d) && m == n.(store := Apply(n.store, d), candidates := DropExecuted(n))
  {
    var order :| UndoOrder(n, order) && m == RestoreIn(cfg, n, order);
    var tip := Tip(hist);
    if StateOf(n.store) != tip {
      var x := ExecutedSingle(cfg, n, tip, order);
      var d := CandidatesAt(n, Next(n))[x].execution.value.revert;
      assert Accounted(cfg, n, tip, x, CandidatesAt(n, Next(n))[x]);
      UndoneBy(cfg, n, hist, x, d, order);
    }
  }

  /** One undo is enough, so the durable records stay unread. */
  lemma UndoneBy(cfg: Config, n: Node, hist: seq<StateMap>, x: Hash, d: Delta, order: seq<(nat, Hash)>)
    requires RootInjective(cfg) && History(cfg, n.chain, hist) && n.chain != [] && StateOf(n.store) != Tip(hist)
    requires UndoOk(n, Tip(hist), d) && IsExecuted(n, x) && d == CandidatesAt(n, Next(n))[x].execution.value.revert
    requires UndoOrder(n, order) && order == [(Next(n), x)]
    ensures RestoreIn(cfg, n, order) == n.(store := Apply(n.store, d), candidates := DropExecuted(n))
  {
    UndoReachesTip(n, Tip(hist), d);
    assert order[1..] == [];
    assert UndoAll(n.store, n, order) == UndoAll(Apply(n.store, d), n, []);
  }

  /** Undoing the executed candidate lands on the tip with the invariant intact. */
  lemma UndoneInv(cfg: Config, n: Node, hist: seq<StateMap>, d: Delta, m: Node)
    requires Inv(cfg, n, hist) && UndoOk(n, Tip(hist), d)
    requires m == n.(store := Apply(n.store, d), candidates := DropExecuted(n))
    ensures Inv(cfg, m, hist)
    ensures StateOf(m.store) == Tip(hist)
    ensures forall x :: !IsExecuted(m, x)
  {
    var tip := Tip(hist);
    UndoReachesTip(n, tip, d);
    assert RecordsOk(m, tip);
    assert CandidatesOk(cfg, m, tip) by {
      forall x | x in CandidatesAt(m, Next(m)) ensures Accounted(cfg, m, tip, x, CandidatesAt(m, Next(m))[x]) {
        assert Accounted(cfg, n, tip, x, CandidatesAt(n, Next(n))[x]);
      }
    }
  }

  /** Bringing the store back never fails in a live run: the result is exactly the
      tip's state, no resync is requested, and nothing else moves. */
  lemma RestoreExact(cfg: Config, n: Node, hist: seq<StateMap>, m: Node)
    requires RootInjective(cfg) && Inv(cfg, n, hist) && Restores(cfg, n, m)
    ensures Inv(cfg, m, hist) && !m.needsResync
    ensures StateOf(m.store) == Tip(hist)
    ensures m == n.(store := m.store, candidates := m.candidates)
    ensures StateOf(n.store) == Tip(hist) ==> m == n
    ensures StateOf(n.store) != Tip(hist) ==> m.candidates == DropExecuted(n)
  {
    RestoredNode(cfg, n, hist, m);
    if StateOf(n.store) != Tip(hist) {
      var d :| UndoOk(n, Tip(hist), d) && m == n.(store := Apply(n.store, d), candidates := DropExecuted(n));
      UndoneInv(cfg, n, hist, d, m);
    }
  }
}
