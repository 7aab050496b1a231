/** Producing is idempotent: proposing a height again, however often the node was
    superseded in between, makes the same block. */
module Reproposal {
  import opened Types
  import opened Storage
  import opened Engine
  import opened EngineInvariant
  import opened EngineSteps
  import opened EngineRuns
  import opened Recovery

  /** Execution reads the state and the stored height, not the node's other bookkeeping. */
  ghost predicate ReadsState(cfg: Config) {
    forall s: Store, t: Store, ops, h :: StateOf(s) == StateOf(t) && StoredTip(s).0 == StoredTip(t).0 ==>
      cfg.stage(s, ops, h) == cfg.stage(t, ops, h) && cfg.receiptsRoot(s, ops, h) == cfg.receiptsRoot(t, ops, h)
  }

  lemma SameEffect(s: Store, t: Store, d: Delta)
    requires StateOf(s) == StateOf(t)
    ensures StateOf(Apply(s, d)) == StateOf(Apply(t, d))
  {
    forall k: Key | k.State? ensures Lookup(Apply(s, d), k) == Lookup(Apply(t, d), k) {
      LookupApply(s, d, k);
      LookupApply(t, d, k);
      assert Lookup(StateOf(s), k) == Lookup(StateOf(t), k);
    }
    StateExtensional(Apply(s, d), Apply(t, d));
  }

  lemma SameRoot(cfg: Config, s: Store, t: Store, h: nat, changes: Changes)
    requires StateOf(s) == StateOf(t)
    ensures RootOf(cfg, EagerCommit(s, h, changes)) == RootOf(cfg, EagerCommit(t, h, changes))
  {
    EagerCommitState(s, h, changes);
    EagerCommitState(t, h, changes);
    SameEffect(s, t, changes);
  }

  /** A proposal is determined by the chain, the state and the stored height. */
  lemma SameProposal(cfg: Config, a: Node, b: Node, ops: Ops)
    requires ReadsState(cfg) && a.chain == b.chain
    requires StateOf(a.store) == StateOf(b.store) && StoredTip(a.store).0 == StoredTip(b.store).0
    ensures Proposal(cfg, a, ops) == Proposal(cfg, b, ops)
  {
    var h := Next(a);
    assert cfg.stage(a.store, ops, h) == cfg.stage(b.store, ops, h)
           && cfg.receiptsRoot(a.store, ops, h) == cfg.receiptsRoot(b.store, ops, h);
    HeadersAgree(cfg, a, b, ops, h, cfg.stage(a.store, ops, h));
  }

  lemma HeadersAgree(cfg: Config, a: Node, b: Node, ops: Ops, h: nat, changes: Changes)
    requires a.chain == b.chain && StateOf(a.store) == StateOf(b.store) && h == Next(a)
    requires cfg.stage(a.store, ops, h) == changes == cfg.stage(b.store, ops, h)
    requires cfg.receiptsRoot(a.store, ops, h) == cfg.receiptsRoot(b.store, ops, h)
    ensures Proposal(cfg, a, ops) == Proposal(cfg, b, ops)
  {
    SameRoot(cfg, a.store, b.store, h, changes);
    HeaderIs(cfg, a, ops, h, changes);
    HeaderIs(cfg, b, ops, h, changes);
  }

  lemma HeaderIs(cfg: Config, n: Node, ops: Ops, h: nat, changes: Changes)
    requires h == Next(n) && changes == cfg.stage(n.store, ops, h)
    ensures Proposal(cfg, n, ops) ==
            HeaderOn(cfg, n.chain, h, ops, RootOf(cfg, EagerCommit(n.store, h, changes)), cfg.receiptsRoot(n.store, ops, h))
  {
  }

  lemma {:induction false} RunExtends(cfg: Config, states: seq<Node>, events: seq<Event>, hist: seq<StateMap>, i: nat, j: nat)
    requires RootInjective(cfg) && SafeRun(cfg, states, events) && Inv(cfg, states[0], hist) && i <= j < |states|
    ensures states[i].chain <= states[j].chain
  {
    if i < j {
      RunExtends(cfg, states, events, hist, i, j - 1);
      RunAdvances(cfg, states, events, hist, j - 1);
      ChainExtends(cfg, states[j - 1], states[j]);
    }
  }

  /** What a restored node builds on: the state whose root is that of its last block, and
      that block's height. */
  ghost predicate OnBase(cfg: Config, chain: seq<FinalizedBlock>, m: Node) {
    && chain != [] && m.chain == chain
    && StoredTip(m.store).0 == chain[|chain| - 1].header.height
    && StateOf(m.store) == cfg.preimage(chain[|chain| - 1].resultRoot)
  }

  lemma TipBase(cfg: Config, m: Node, hist: seq<StateMap>)
    requires RootInjective(cfg) && ChainOk(cfg, m.chain, m.journal, hist) && MetaOk(m) && StateOf(m.store) == Tip(hist)
    ensures OnBase(cfg, m.chain, m)
  {
    assert cfg.root(hist[|hist| - 1]) == m.chain[|m.chain| - 1].resultRoot;
  }

  lemma RestoredBase(cfg: Config, states: seq<Node>, events: seq<Event>, hist: seq<StateMap>, i: nat, m: Node)
    requires RootInjective(cfg) && SafeRun(cfg, states, events) && Inv(cfg, states[0], hist) && i < |states|
    requires Restores(cfg, states[i], m)
    ensures OnBase(cfg, states[i].chain, m)
  {
    var h := RunInvariant(cfg, states, events, hist, i);
    RestoreExact(cfg, states[i], h, m);
    TipBase(cfg, m, h);
  }

  lemma SameBase(cfg: Config, chain: seq<FinalizedBlock>, a: Node, b: Node, ops: Ops)
    requires ReadsState(cfg) && OnBase(cfg, chain, a) && OnBase(cfg, chain, b)
    ensures Proposal(cfg, a, ops) == Proposal(cfg, b, ops)
  {
    SameProposal(cfg, a, b, ops);
  }

  /** In any live run, two proposals of the same operations at the same height are the same
      block with the same hash, whatever was produced, accepted or rejected in between. */
  lemma ReproposalSame(cfg: Config, states: seq<Node>, events: seq<Event>, hist: seq<StateMap>, i: nat, j: nat,
                       a: Node, b: Node, ops: Ops)
    requires RootInjective(cfg) && ReadsState(cfg) && SafeRun(cfg, states, events) && Inv(cfg, states[0], hist)
    requires i <= j < |states| && |states[i].chain| == |states[j].chain|
    requires Restores(cfg, states[i], a) && Restores(cfg, states[j], b)
    ensures Proposal(cfg, a, ops) == Proposal(cfg, b, ops)
  {
    RunExtends(cfg, states, events, hist, i, j);
    RestoredBase(cfg, states, events, hist, i, a);
    RestoredBase(cfg, states, events, hist, j, b);
    SameBase(cfg, states[i].chain, a, b, ops);
  }
}
