/** Each step of a node keeps the invariant, except one: producing again over a held
    candidate that had no effect. That exception is stated exactly. */
module EngineSteps {
  import opened Types
  import opened Storage
  import opened Validators
  import opened Engine
  import opened EngineInvariant

  ghost predicate HashInjective(cfg: Config) {
    forall a, b :: cfg.hash(a) == cfg.hash(b) ==> a == b
  }

  // ---------- Producing ----------

  /** Executing these operations on this store moves the state root. */
  predicate HasEffect(cfg: Config, n: Node, ops: Ops) {
    ExecutedRoot(cfg, n.store, ops, Next(n)) != RootOf(cfg, n.store)
  }

  predicate OnTip(cfg: Config, n: Node) {
    n.chain != [] && RootOf(cfg, n.store) == n.chain[|n.chain| - 1].resultRoot
  }

  /** The one unsafe call: the store is on the tip although an own executed candidate
      is still held, and the new block would change state. */
  ghost predicate Overwrites(cfg: Config, n: Node, ops: Ops) {
    OnTip(cfg, n) && (exists x :: IsExecuted(n, x)) && HasEffect(cfg, n, ops)
  }

  lemma EagerCommitState(s: Store, h: nat, changes: Changes)
    ensures StateOf(EagerCommit(s, h, changes)) == StateOf(Apply(s, changes))
    ensures Recalls(EagerUndo(s, h, changes), StateOf(s))
    ensures AgreeOff(StateOf(EagerCommit(s, h, changes)), StateOf(s), EagerUndo(s, h, changes))
  {
    var a, b := EagerCommit(s, h, changes), Apply(s, changes);
    forall k: Key ensures k.State? ==> Lookup(a, k) == Lookup(b, k) {
      EagerCommitAt(s, h, changes, k);
      LookupApply(s, changes, k);
    }
    StateExtensional(a, b);
    CapturedUndo(s, changes);
  }

  lemma StateExtensional(a: Store, b: Store)
    requires forall k: Key :: k.State? ==> Lookup(a, k) == Lookup(b, k)
    ensures StateOf(a) == StateOf(b)
  {
  }

  /** What an eager commit leaves under each key. */
  lemma EagerCommitAt(s: Store, h: nat, changes: Changes, k: Key)
    ensures Lookup(EagerCommit(s, h, changes), k) ==
            if k == EagerRevert(h) then Some(Undo(EagerUndo(s, h, changes)))
            else if k in changes then changes[k] else Lookup(s, k)
  {
  }

  /** The captured values recall the state before, and cover every state key written. */
  lemma CapturedUndo(s: Store, changes: Delta)
    ensures Recalls(Capture(s, changes.Keys), StateOf(s))
    ensures AgreeOff(StateOf(Apply(s, changes)), StateOf(s), Capture(s, changes.Keys))
  {
  }

  /** The candidate a node creates for itself satisfies every clause about candidates. */
  lemma OwnCandidateOk(cfg: Config, n: Node, ops: Ops)
    requires n.chain != []
    ensures var p := Propose(cfg, n, ops); var x := cfg.hash(Proposal(cfg, n, ops));
      && Next(p) == Next(n) && IsExecuted(p, x)
      && Accounted(cfg, p, StateOf(n.store), x, CandidatesAt(p, Next(p))[x])
      && EagerRevert(Next(p)) in p.store
      && p.store[EagerRevert(Next(p))] == Undo(CandidatesAt(p, Next(p))[x].execution.value.revert)
    ensures StateOf(Propose(cfg, n, ops).store) == StateOf(Apply(n.store, cfg.stage(n.store, ops, Next(n))))
  {
    var h := Next(n);
    var changes := cfg.stage(n.store, ops, h);
    var p, header := Propose(cfg, n, ops), Proposal(cfg, n, ops);
    ProposedStore(cfg, n, ops);
    var own := Pending(header, ops, Some(Execution(header.stateRoot, EagerUndo(n.store, h, changes))));
    OwnExecutionOk(cfg, n, p, own, Vote(h, cfg.hash(header)));
  }

  /** Beyond the eager commit, proposing stores the vote. */
  lemma ProposedStore(cfg: Config, n: Node, ops: Ops)
    ensures var h := Next(n); var s := EagerCommit(n.store, h, cfg.stage(n.store, ops, h));
      Propose(cfg, n, ops).store == s[LastAttestation := Vote(h, cfg.hash(Proposal(cfg, n, ops)))]
  {
  }

  lemma OwnExecutionOk(cfg: Config, n: Node, p: Node, own: Pending, v: Value)
    requires var h := Next(n); var changes := cfg.stage(n.store, own.ops, h);
      && Next(p) == h && own.execution == Some(Execution(own.header.stateRoot, EagerUndo(n.store, h, changes)))
      && own.header.stateRoot == RootOf(cfg, EagerCommit(n.store, h, changes))
      && p.store == EagerCommit(n.store, h, changes)[LastAttestation := v]
    ensures ExecutionOk(cfg, p, StateOf(n.store), own)
    ensures StateOf(p.store) == StateOf(Apply(n.store, cfg.stage(n.store, own.ops, Next(n))))
  {
    var h := Next(n);
    var changes := cfg.stage(n.store, own.ops, h);
    EagerCommitState(n.store, h, changes);
    BookkeepingPut(EagerCommit(n.store, h, changes), LastAttestation, v);
    assert Executes(cfg, StateOf(n.store), own.ops, h, StateOf(p.store));
  }

  /** A held candidate stays accounted for when the state does not move. */
  lemma HeldCandidateOk(cfg: Config, n: Node, p: Node, tip: StateMap, y: Hash, pb: Pending)
    requires n.chain != [] && p.chain == n.chain && StateOf(p.store) == StateOf(n.store)
    requires Accounted(cfg, n, tip, y, pb)
    ensures Accounted(cfg, p, tip, y, pb)
  {
  }

  lemma SameTip(cfg: Config, n: Node, m: Node, x: Hash, pb: Pending)
    requires n.chain != [] && Height(m) == Height(n) && m.chain == n.chain && CandidateOk(cfg, n, x, pb)
    ensures CandidateOk(cfg, m, x, pb)
  {
  }

  lemma ProposeMeta(cfg: Config, n: Node, ops: Ops)
    requires MetaOk(n)
    ensures MetaOk(Propose(cfg, n, ops))
  {
    ProposedMeta(cfg, n, ops);
    SameMeta(n, Propose(cfg, n, ops));
  }

  lemma ProposedMeta(cfg: Config, n: Node, ops: Ops)
    ensures var p := Propose(cfg, n, ops);
      Height(p) == Height(n) && Lookup(p.store, ChainMeta) == Lookup(n.store, ChainMeta)
  {
    ProposedStore(cfg, n, ops);
    EagerCommitMeta(n.store, Next(n), cfg.stage(n.store, ops, Next(n)));
  }

  lemma SameMeta(n: Node, p: Node)
    requires MetaOk(n) && Height(p) == Height(n) && Lookup(p.store, ChainMeta) == Lookup(n.store, ChainMeta)
    ensures MetaOk(p)
  {
  }

  lemma EagerCommitMeta(s: Store, h: nat, changes: Changes)
    ensures Lookup(EagerCommit(s, h, changes), ChainMeta) == Lookup(s, ChainMeta)
  {
  }

  /** Proposing writes the record of the next height and no other. */
  lemma ProposedRecord(cfg: Config, n: Node, ops: Ops, g: nat)
    requires EagerRevert(g) in Propose(cfg, n, ops).store
    ensures g == Next(n) || EagerRevert(g) in n.store
  {
  }

  lemma ProposeRecords(cfg: Config, n: Node, ops: Ops)
    requires n.chain != [] && RecordsOk(n, StateOf(n.store))
    ensures RecordsOk(Propose(cfg, n, ops), StateOf(n.store))
  {
    var p := Propose(cfg, n, ops);
    forall g: nat | EagerRevert(g) in p.store && g > Height(p)
      ensures g == Next(p) && p.store[EagerRevert(g)].Undo? && UndoOk(p, StateOf(n.store), p.store[EagerRevert(g)].delta)
    {
      ProposedRecord(cfg, n, ops, g);
      OwnCandidateOk(cfg, n, ops);
    }
  }

  lemma ProposeCandidates(cfg: Config, n: Node, ops: Ops)
    requires RootInjective(cfg) && n.chain != [] && CandidatesOk(cfg, n, StateOf(n.store))
    requires (exists x :: IsExecuted(n, x)) ==> !HasEffect(cfg, n, ops)
    ensures CandidatesOk(cfg, Propose(cfg, n, ops), StateOf(n.store))
  {
    var p, x, tip := Propose(cfg, n, ops), cfg.hash(Proposal(cfg, n, ops)), StateOf(n.store);
    OwnCandidateOk(cfg, n, ops);
    forall y | y in CandidatesAt(p, Next(p)) ensures Accounted(cfg, p, tip, y, CandidatesAt(p, Next(p))[y]) {
      if y != x {
        var pb := CandidatesAt(n, Next(n))[y];
        assert Accounted(cfg, n, tip, y, pb);
        if pb.execution.Some? {
          assert IsExecuted(n, y);
          HeldCandidateOk(cfg, n, p, tip, y, pb);
        } else {
          SameTip(cfg, n, p, y, pb);
        }
      }
    }
  }

  lemma ProposeDrift(cfg: Config, n: Node, ops: Ops)
    requires RootInjective(cfg) && n.chain != []
    requires (exists x :: IsExecuted(n, x)) ==> !HasEffect(cfg, n, ops)
    ensures DriftOk(Propose(cfg, n, ops), StateOf(n.store))
  {
    var p, x := Propose(cfg, n, ops), cfg.hash(Proposal(cfg, n, ops));
    if StateOf(p.store) != StateOf(n.store) {
      OwnCandidateOk(cfg, n, ops);
      forall y | IsExecuted(p, y) ensures y == x { ProposedExecuted(cfg, n, ops, y); }
    }
  }

  lemma ProposedExecuted(cfg: Config, n: Node, ops: Ops, y: Hash)
    requires IsExecuted(Propose(cfg, n, ops), y)
    ensures y == cfg.hash(Proposal(cfg, n, ops)) || IsExecuted(n, y)
  {
  }

  lemma TipRoot(cfg: Config, n: Node, hist: seq<StateMap>)
    requires n.chain != [] && History(cfg, n.chain, hist) && StateOf(n.store) == Tip(hist)
    ensures OnTip(cfg, n)
  {
  }

  lemma ProposeKeeps(cfg: Config, n: Node, hist: seq<StateMap>, ops: Ops)
    requires RootInjective(cfg) && Inv(cfg, n, hist) && StateOf(n.store) == Tip(hist)
    requires !Overwrites(cfg, n, ops)
    ensures Inv(cfg, Propose(cfg, n, ops), hist)
  {
    TipRoot(cfg, n, hist);
    ProposeCandidates(cfg, n, ops);
    ProposeDrift(cfg, n, ops);
    ProposeRecords(cfg, n, ops);
    ProposeMeta(cfg, n, ops);
  }

  /** A newer own block does not displace the older candidate: its root differs. */
  lemma OldCandidateHeld(cfg: Config, n: Node, hist: seq<StateMap>, ops: Ops, x: Hash)
    requires HashInjective(cfg) && Inv(cfg, n, hist) && IsExecuted(n, x) && HasEffect(cfg, n, ops)
    ensures var p := Propose(cfg, n, ops);
      x in CandidatesAt(p, Next(p)) && CandidatesAt(p, Next(p))[x] == CandidatesAt(n, Next(n))[x]
  {
    OwnCandidateOk(cfg, n, ops);
    assert Accounted(cfg, n, Tip(hist), x, CandidatesAt(n, Next(n))[x]);
    assert CandidatesAt(n, Next(n))[x].header != Proposal(cfg, n, ops);
  }

  /** Producing on the tip keeps the invariant if and only if it is not the unsafe call. */
  lemma ProposeKeepsIff(cfg: Config, n: Node, hist: seq<StateMap>, ops: Ops)
    requires RootInjective(cfg) && HashInjective(cfg)
    requires Inv(cfg, n, hist) && StateOf(n.store) == Tip(hist)
    ensures Inv(cfg, Propose(cfg, n, ops), hist) <==> !Overwrites(cfg, n, ops)
  {
    if Overwrites(cfg, n, ops) {
      var y :| IsExecuted(n, y);
      var p, pb := Propose(cfg, n, ops), CandidatesAt(n, Next(n))[y];
      OldCandidateHeld(cfg, n, hist, ops, y);
      assert RootOf(cfg, p.store) != RootOf(cfg, n.store) by { OwnCandidateOk(cfg, n, ops); }
      assert Accounted(cfg, n, Tip(hist), y, pb);
      assert !Accounted(cfg, p, Tip(hist), y, pb);
    } else {
      ProposeKeeps(cfg, n, hist, ops);
    }
  }

  // ---------- Finalizing ----------

  lemma ChainGrows(cfg: Config, chain: seq<FinalizedBlock>, hist: seq<StateMap>, b: FinalizedBlock, t: StateMap)
    requires Linked(cfg, chain) && History(cfg, chain, hist)
    requires ChildOf(cfg, chain[|chain| - 1].header, b.header)
    requires b.resultRoot == b.header.stateRoot == cfg.root(t) && StateOf(t) == t
    requires Executes(cfg, Tip(hist), b.ops, b.header.height, t)
    ensures Linked(cfg, chain + [b]) && History(cfg, chain + [b], hist + [t])
  {
    var c, g := chain + [b], hist + [t];
    forall i, j | 0 <= i < j < |c| && j == i + 1
      ensures Executes(cfg, g[i], c[j].ops, c[j].header.height, g[j]) && ChildOf(cfg, c[i].header, c[j].header)
    {
      if j < |chain| { assert c[i] == chain[i] && c[j] == chain[j]; }
    }
  }

  lemma JournalGrows(chain: seq<FinalizedBlock>, hist: seq<StateMap>, journal: seq<JournalEntry>,
                     b: FinalizedBlock, t: StateMap, revert: Delta)
    requires |hist| == |chain| && chain != []
    requires JournalOk(chain, journal, hist)
    requires b.header.height == chain[|chain| - 1].header.height + 1
    requires Recalls(revert, Tip(hist)) && AgreeOff(t, Tip(hist), revert)
    ensures JournalOk(chain + [b], Record(journal, JOURNAL_CAP, b.header.height, revert), hist + [t])
  {
  }

  /** The block is the next one on a good chain. */
  ghost predicate NextBlock(cfg: Config, n: Node, hist: seq<StateMap>, h: nat, header: Header) {
    ChainOk(cfg, n.chain, n.journal, hist) && h == Next(n) && ChildOf(cfg, n.chain[|n.chain| - 1].header, header)
  }

  /** The store is what executing the block on the tip's state gives, and the undo leads back. */
  ghost predicate RanOn(cfg: Config, s: Store, tip: StateMap, h: nat, pb: Pending, e: Execution) {
    && e.root == pb.header.stateRoot == RootOf(cfg, s)
    && Executes(cfg, tip, pb.ops, h, StateOf(s))
    && Recalls(e.revert, tip) && AgreeOff(StateOf(s), tip, e.revert)
  }

  /** Nothing but the given height is held above the tip. */
  ghost predicate Bare(n: Node, h: nat) {
    && (forall g: nat :: EagerRevert(g) in n.store && g > Height(n) ==> g == h)
    && n.candidates.Keys <= {h} && n.invalid.Keys <= {h} && !n.needsResync && MetaOk(n)
  }

  /** What a block needs to be appended on this node. */
  ghost predicate ReadyToAppend(cfg: Config, n: Node, hist: seq<StateMap>, h: nat, pb: Pending, e: Execution) {
    NextBlock(cfg, n, hist, h, pb.header) && RanOn(cfg, n.store, Tip(hist), h, pb, e) && Bare(n, h)
  }

  lemma NoneAbove<T>(m: map<nat, T>, h: nat)
    requires m.Keys <= {h}
    ensures Above(m, h) == map[]
  {
  }

  lemma AppendState(cfg: Config, n: Node, h: nat, pb: Pending, e: Execution, attesters: set<Id>, roster: Roster)
    ensures StateOf(Append(cfg, n, h, pb, e, attesters, roster).store) == StateOf(n.store)
  {
  }

  lemma AppendedChain(cfg: Config, n: Node, hist: seq<StateMap>, h: nat, pb: Pending, e: Execution, attesters: set<Id>)
    requires ReadyToAppend(cfg, n, hist, h, pb, e)
    ensures ChainOk(cfg, n.chain + [FinalizedBlock(pb.header, e.root, attesters, pb.ops)],
                    Record(n.journal, JOURNAL_CAP, h, e.revert), hist + [StateOf(n.store)])
  {
    var t := StateOf(n.store);
    var b := FinalizedBlock(pb.header, e.root, attesters, pb.ops);
    StateOfState(n.store);
    ChainGrows(cfg, n.chain, hist, b, t);
    JournalGrows(n.chain, hist, n.journal, b, t, e.revert);
  }

  lemma AppendKeeps(cfg: Config, n: Node, hist: seq<StateMap>, h: nat, pb: Pending, e: Execution,
                    attesters: set<Id>, roster: Roster)
    requires ReadyToAppend(cfg, n, hist, h, pb, e)
    ensures Inv(cfg, Forget(Append(cfg, n, h, pb, e, attesters, roster), h), hist + [StateOf(n.store)])
  {
    var m := Forget(Append(cfg, n, h, pb, e, attesters, roster), h);
    AppendedChain(cfg, n, hist, h, pb, e, attesters);
    AppendedClean(cfg, n, h, pb, e, attesters, roster);
    CleanInv(cfg, m, hist + [StateOf(n.store)]);
  }

  /** After an append nothing is held above the new tip. */
  lemma AppendedClean(cfg: Config, n: Node, h: nat, pb: Pending, e: Execution, attesters: set<Id>, roster: Roster)
    requires n.candidates.Keys <= {h} && n.invalid.Keys <= {h} && pb.header.height == h
    requires forall g: nat :: EagerRevert(g) in n.store ==> g <= h
    ensures var m := Forget(Append(cfg, n, h, pb, e, attesters, roster), h);
      && StateOf(m.store) == StateOf(n.store) && Height(m) == h
      && m.candidates == map[] && m.invalid == map[] && MetaOk(m)
      && (forall g: nat :: EagerRevert(g) in m.store ==> g <= h)
  {
  }

  /** Our own candidate is finalized as it was executed: the store does not move. */
  lemma OwnReady(cfg: Config, n: Node, hist: seq<StateMap>, x: Hash)
    requires ChainOk(cfg, n.chain, n.journal, hist) && RecordsOk(n, Tip(hist)) && MetaOk(n)
    requires n.candidates.Keys <= {Next(n)} && n.invalid.Keys <= {Next(n)} && !n.needsResync
    requires IsExecuted(n, x) && Accounted(cfg, n, Tip(hist), x, CandidatesAt(n, Next(n))[x])
    ensures ReadyToAppend(cfg, TakeCandidate(n, Next(n), x), hist, Next(n), CandidatesAt(n, Next(n))[x],
                          CandidatesAt(n, Next(n))[x].execution.value)
  {
  }

  lemma TakePeerCandidates(cfg: Config, n: Node, tip: StateMap, x: Hash)
    requires n.chain != [] && CandidatesOk(cfg, n, tip)
    ensures CandidatesOk(cfg, TakeCandidate(n, Next(n), x), tip)
  {
    var m := TakeCandidate(n, Next(n), x);
    forall y | y in CandidatesAt(m, Next(m)) ensures Accounted(cfg, m, tip, y, CandidatesAt(m, Next(m))[y]) {
      assert CandidatesAt(m, Next(m))[y] == CandidatesAt(n, Next(n))[y];
      HeldCandidateOk(cfg, n, m, tip, y, CandidatesAt(n, Next(n))[y]);
    }
  }

  lemma TakePeerDrift(n: Node, tip: StateMap, x: Hash)
    requires DriftOk(n, tip) && !IsExecuted(n, x)
    ensures DriftOk(TakeCandidate(n, Next(n), x), tip)
  {
    var m := TakeCandidate(n, Next(n), x);
    forall y ensures IsExecuted(m, y) <==> IsExecuted(n, y) { }
  }

  lemma TakePeerKeeps(cfg: Config, n: Node, hist: seq<StateMap>, x: Hash)
    requires Inv(cfg, n, hist) && !IsExecuted(n, x)
    ensures Inv(cfg, TakeCandidate(n, Next(n), x), hist)
  {
    TakePeerCandidates(cfg, n, Tip(hist), x);
    TakePeerDrift(n, Tip(hist), x);
  }

  /** A peer block that reproduces its root is ready to be appended after execution. */
  lemma PeerReady(cfg: Config, m: Node, hist: seq<StateMap>, h: nat, x: Hash, pb: Pending)
    requires ChainOk(cfg, m.chain, m.journal, hist) && RecordsOk(m, Tip(hist)) && MetaOk(m)
    requires m.candidates.Keys <= {h} && m.invalid.Keys <= {h} && !m.needsResync
    requires StateOf(m.store) == Tip(hist) && h == Next(m)
    requires CandidateOk(cfg, m, x, pb) && ExecutedRoot(cfg, m.store, pb.ops, h) == pb.header.stateRoot
    ensures var changes := cfg.stage(m.store, pb.ops, h);
      ReadyToAppend(cfg, m.(store := Apply(m.store, changes)), hist, h, pb,
                    Execution(pb.header.stateRoot, Capture(m.store, changes.Keys)))
  {
    var changes := cfg.stage(m.store, pb.ops, h);
    RanPeer(cfg, m.store, h, pb);
    BareAfter(m, Tip(hist), h, changes);
    SameNext(cfg, m, hist, h, x, pb, Apply(m.store, changes));
  }

  lemma RanPeer(cfg: Config, s: Store, h: nat, pb: Pending)
    requires ExecutedRoot(cfg, s, pb.ops, h) == pb.header.stateRoot
    ensures var changes := cfg.stage(s, pb.ops, h);
      RanOn(cfg, Apply(s, changes), StateOf(s), h, pb, Execution(pb.header.stateRoot, Capture(s, changes.Keys)))
  {
    var changes := cfg.stage(s, pb.ops, h);
    assert Executes(cfg, StateOf(s), pb.ops, h, StateOf(Apply(s, changes)));
    CapturedUndo(s, changes);
  }

  lemma BareAfter(m: Node, tip: StateMap, h: nat, changes: Changes)
    requires RecordsOk(m, tip) && MetaOk(m) && h == Next(m)
    requires m.candidates.Keys <= {h} && m.invalid.Keys <= {h} && !m.needsResync
    ensures Bare(m.(store := Apply(m.store, changes)), h)
  {
    StagedBookkeeping(m.store, changes);
  }

  lemma SameNext(cfg: Config, m: Node, hist: seq<StateMap>, h: nat, x: Hash, pb: Pending, s: Store)
    requires ChainOk(cfg, m.chain, m.journal, hist) && h == Next(m) && CandidateOk(cfg, m, x, pb)
    ensures NextBlock(cfg, m.(store := s), hist, h, pb.header)
  {
  }

  /** Staged changes leave the engine's own keys alone. */
  lemma StagedBookkeeping(s: Store, changes: Changes)
    ensures forall g: nat :: EagerRevert(g) in Apply(s, changes) ==> EagerRevert(g) in s
    ensures Lookup(Apply(s, changes), ChainMeta) == Lookup(s, ChainMeta)
  {
  }

  /** A peer block that does not reproduce its root leaves the tip as it was. */
  lemma RejectKeeps(cfg: Config, m: Node, hist: seq<StateMap>, h: nat, pb: Pending, bad: Hash)
    requires Inv(cfg, m, hist) && StateOf(m.store) == Tip(hist) && h == Next(m)
    ensures var changes := cfg.stage(m.store, pb.ops, h);
      var undone := Apply(Apply(m.store, changes), Capture(m.store, changes.Keys));
      && undone == m.store
      && Inv(cfg, Forget(Reject(cfg, m.(store := undone), h, bad), h), hist)
  {
    var changes := cfg.stage(m.store, pb.ops, h);
    UndoRestores(m.store, changes);
    var r := Forget(Reject(cfg, m, h, bad), h);
    NoneAbove(m.candidates, h);
    CleanInv(cfg, r, hist);
  }

  /** How a finalization attempt can end: the chain grows by the block with hash `x`
      and its attesters, or the block proves invalid and stays out. */
  ghost predicate Finalized(cfg: Config, n: Node, x: Hash, attesters: set<Id>, n': Node) {
    && |n'.chain| == |n.chain| + 1
    && n'.chain[..|n.chain|] == n.chain
    && cfg.hash(n'.chain[|n.chain|].header) == x
    && n'.chain[|n.chain|].attesters == attesters
  }

  ghost predicate FoundInvalid(n: Node, x: Hash, n': Node) {
    n'.chain == n.chain && InvalidAt(n', Next(n)) == InvalidAt(n, Next(n)) + {x}
  }

  lemma SameOutcome(cfg: Config, n: Node, m: Node, x: Hash, attesters: set<Id>, n': Node)
    requires m.chain == n.chain && m.invalid == n.invalid
    ensures Finalized(cfg, m, x, attesters, n') ==> Finalized(cfg, n, x, attesters, n')
    ensures FoundInvalid(m, x, n') ==> FoundInvalid(n, x, n')
  {
  }

  /** A peer candidate is always executed on the tip's own state. */
  lemma PeerRunsOnTip(cfg: Config, n: Node, hist: seq<StateMap>, x: Hash, m: Node)
    requires RootInjective(cfg) && Inv(cfg, n, hist)
    requires x in CandidatesAt(n, Next(n)) && !IsExecuted(n, x)
    requires ReadyFor(cfg, TakeCandidate(n, Next(n), x), CandidatesAt(n, Next(n))[x], m)
    ensures Inv(cfg, m, hist) && StateOf(m.store) == Tip(hist)
    ensures m.chain == n.chain && m.votes == n.votes && m.invalid == n.invalid && m.roster == n.roster
  {
    TakePeerKeeps(cfg, n, hist, x);
    RestoreExact(cfg, TakeCandidate(n, Next(n), x), hist, m);
  }

  lemma FinalizeOwn(cfg: Config, n: Node, hist: seq<StateMap>, x: Hash, roster: Roster)
    requires Inv(cfg, n, hist) && IsExecuted(n, x)
    ensures var h, pb := Next(n), CandidatesAt(n, Next(n))[x];
      var n' := Forget(Conclude(cfg, TakeCandidate(n, h, x), h, pb, Voters(n, h, x), roster), h);
      && Inv(cfg, n', hist + [StateOf(n.store)])
      && Finalized(cfg, n, x, Voters(n, h, x), n')
  {
    var h, pb := Next(n), CandidatesAt(n, Next(n))[x];
    assert Accounted(cfg, n, Tip(hist), x, pb);
    OwnReady(cfg, n, hist, x);
    AppendKeeps(cfg, TakeCandidate(n, h, x), hist, h, pb, pb.execution.value, Voters(n, h, x), roster);
  }

  /** `hist'` continues `hist` by the new block's state, or the block proved invalid. */
  ghost predicate Outcome(cfg: Config, n: Node, hist: seq<StateMap>, x: Hash, attesters: set<Id>,
                          n': Node, hist': seq<StateMap>)
  {
    && hist <= hist'
    && if |n'.chain| > |n.chain| then Finalized(cfg, n, x, attesters, n')
       else FoundInvalid(n, x, n') && hist' == hist
  }

  lemma FinalizePeer(cfg: Config, m: Node, hist: seq<StateMap>, x: Hash, pb: Pending, attesters: set<Id>, roster: Roster)
    returns (hist': seq<StateMap>)
    requires Inv(cfg, m, hist) && StateOf(m.store) == Tip(hist)
    requires CandidateOk(cfg, m, x, pb) && pb.execution.None?
    ensures var n' := Forget(Conclude(cfg, m, Next(m), pb, attesters, roster), Next(m));
      Inv(cfg, n', hist') && Outcome(cfg, m, hist, x, attesters, n', hist')
  {
    if ExecutedRoot(cfg, m.store, pb.ops, Next(m)) == pb.header.stateRoot {
      hist' := PeerAppends(cfg, m, hist, x, pb, attesters, roster);
    } else {
      RejectKeeps(cfg, m, hist, Next(m), pb, x);
      hist' := hist;
    }
  }

  lemma PeerAppends(cfg: Config, m: Node, hist: seq<StateMap>, x: Hash, pb: Pending, attesters: set<Id>, roster: Roster)
    returns (hist': seq<StateMap>)
    requires Inv(cfg, m, hist) && StateOf(m.store) == Tip(hist) && CandidateOk(cfg, m, x, pb) && pb.execution.None?
    requires ExecutedRoot(cfg, m.store, pb.ops, Next(m)) == pb.header.stateRoot
    ensures var n' := Forget(Conclude(cfg, m, Next(m), pb, attesters, roster), Next(m));
      Inv(cfg, n', hist') && Outcome(cfg, m, hist, x, attesters, n', hist')
  {
    var h, changes := Next(m), cfg.stage(m.store, pb.ops, Next(m));
    PeerReady(cfg, m, hist, h, x, pb);
    AppendKeeps(cfg, m.(store := Apply(m.store, changes)), hist, h, pb,
                Execution(pb.header.stateRoot, Capture(m.store, changes.Keys)), attesters, roster);
    hist' := hist + [StateOf(Apply(m.store, changes))];
  }

  lemma FinalizeTaken(cfg: Config, n: Node, hist: seq<StateMap>, x: Hash, roster: Roster, m: Node)
    returns (hist': seq<StateMap>)
    requires Inv(cfg, n, hist) && x in CandidatesAt(n, Next(n)) && !IsExecuted(n, x)
    requires Inv(cfg, m, hist) && StateOf(m.store) == Tip(hist) && m.chain == n.chain && m.invalid == n.invalid
    ensures var n' := Forget(Conclude(cfg, m, Next(n), CandidatesAt(n, Next(n))[x], Voters(n, Next(n), x), roster), Next(n));
      Inv(cfg, n', hist') && Outcome(cfg, n, hist, x, Voters(n, Next(n), x), n', hist')
  {
    var h, pb := Next(n), CandidatesAt(n, Next(n))[x];
    var voters := Voters(n, h, x);
    assert Accounted(cfg, n, Tip(hist), x, pb);
    SameTip(cfg, n, m, x, pb);
    hist' := FinalizePeer(cfg, m, hist, x, pb, voters, roster);
    SameOutcome(cfg, n, m, x, voters, Forget(Conclude(cfg, m, h, pb, voters, roster), h));
  }

  /** Finalizing the candidate with hash `x`: the chain grows by exactly that block,
      or the block is found invalid and the tip stays; either way the invariant holds. */
  lemma FinalizeKeeps(cfg: Config, n: Node, hist: seq<StateMap>, x: Hash, roster: Roster, n': Node)
    returns (hist': seq<StateMap>)
    requires RootInjective(cfg) && Inv(cfg, n, hist)
    requires x in CandidatesAt(n, Next(n)) && Finalizes(cfg, n, Next(n), x, roster, n')
    ensures Inv(cfg, n', hist') && Outcome(cfg, n, hist, x, Voters(n, Next(n), x), n', hist')
  {
    var h, pb := Next(n), CandidatesAt(n, Next(n))[x];
    var m :| ReadyFor(cfg, TakeCandidate(n, h, x), pb, m)
             && n' == Forget(Conclude(cfg, m, h, pb, Voters(n, h, x), roster), h);
    if pb.execution.Some? {
      FinalizeOwn(cfg, n, hist, x, roster);
      hist' := hist + [StateOf(n.store)];
    } else {
      PeerRunsOnTip(cfg, n, hist, x, m);
      hist' := FinalizeTaken(cfg, n, hist, x, roster, m);
    }
  }
}
