/** Where the one unsafe call leads: producing a block with an effect while an own
    effect-free candidate is still held, and then finalizing the old candidate. */
module UnsafeProduce {
  import opened Types
  import opened Storage
  import opened Engine
  import opened EngineInvariant
  import opened EngineSteps

  /** An idle proposal is enough to get there: after it, every call that would change
      state is the unsafe one. */
  lemma IdleThenBusy(cfg: Config, n: Node, idle: Ops, busy: Ops)
    requires OnTip(cfg, n) && !HasEffect(cfg, n, idle)
    ensures var p := Propose(cfg, n, idle);
      Overwrites(cfg, p, busy) <==> HasEffect(cfg, p, busy)
  {
    OwnCandidateOk(cfg, n, idle);
    assert IsExecuted(Propose(cfg, n, idle), cfg.hash(Proposal(cfg, n, idle)));
  }

  /** The store is off the tip and nothing held can lead it back. */
  ghost predicate Stranded(cfg: Config, n: Node) {
    && n.chain != [] && !OnTip(cfg, n)
    && n.candidates == map[] && RecordHeights(n.store, Height(n)) == {}
  }

  lemma StrandedResyncs(cfg: Config, n: Node, m: Node)
    requires Stranded(cfg, n) && Restores(cfg, n, m)
    ensures m.needsResync && !OnTip(cfg, m)
  {
  }

  lemma FinalizesExecuted(cfg: Config, p: Node, h: nat, x: Hash, roster: Roster, n': Node)
    requires x in CandidatesAt(p, h) && CandidatesAt(p, h)[x].execution.Some? && Finalizes(cfg, p, h, x, roster, n')
    ensures var pb := CandidatesAt(p, h)[x];
      n' == Forget(Append(cfg, TakeCandidate(p, h, x), h, pb, pb.execution.value, Voters(p, h, x), roster), h)
  {
  }

  /** Appending a block whose root is not the store's strands a node without other help. */
  lemma WrongRootStrands(cfg: Config, m: Node, h: nat, pb: Pending, e: Execution, attesters: set<Id>, roster: Roster)
    requires pb.header.height == h && e.root != RootOf(cfg, m.store) && m.candidates.Keys <= {h}
    requires forall g: nat :: EagerRevert(g) in m.store ==> g <= h
    ensures Stranded(cfg, Forget(Append(cfg, m, h, pb, e, attesters, roster), h))
  {
    var n' := Forget(Append(cfg, m, h, pb, e, attesters, roster), h);
    AppendState(cfg, m, h, pb, e, attesters, roster);
    NoneAbove(m.candidates, h);
    assert RecordHeights(n'.store, h) == {} by {
      forall k | k in n'.store && k.EagerRevert? ensures k.height <= h { assert EagerRevert(k.height) in m.store; }
    }
  }

  /** After the unsafe call, finalizing the old candidate strands the node: its store
      holds the new block's effect, both undos are gone, and every restore asks for a
      resync. */
  lemma OverwriteStrands(cfg: Config, n: Node, hist: seq<StateMap>, ops: Ops, x: Hash, roster: Roster, n': Node)
    requires HashInjective(cfg) && Inv(cfg, n, hist)
    requires Overwrites(cfg, n, ops) && IsExecuted(n, x)
    requires Finalizes(cfg, Propose(cfg, n, ops), Next(n), x, roster, n')
    ensures Stranded(cfg, n')
  {
    var p, h, pb := Propose(cfg, n, ops), Next(n), CandidatesAt(n, Next(n))[x];
    OldCandidateHeld(cfg, n, hist, ops, x);
    FinalizesExecuted(cfg, p, h, x, roster, n');
    assert pb.header.height == h && pb.execution.value.root == RootOf(cfg, n.store) by {
      assert Accounted(cfg, n, Tip(hist), x, pb);
    }
    assert RootOf(cfg, p.store) != RootOf(cfg, n.store) by { OwnCandidateOk(cfg, n, ops); }
    forall g: nat | EagerRevert(g) in p.store ensures g <= h { ProposedRecord(cfg, n, ops, g); }
    WrongRootStrands(cfg, TakeCandidate(p, h, x), h, pb, pb.execution.value, Voters(p, h, x), roster);
  }
}
