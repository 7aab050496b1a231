/** Whole runs of a live node: the invariant in every state, growth of the chain block
    by block, and blocks proved invalid that stay out. */
module EngineRuns {
  import opened Types
  import opened Storage
  import opened Validators
  import opened Engine
  import opened EngineInvariant
  import opened EngineSteps

  // ---------- One step ----------

  /** The drift clause sees the store and the executed candidates only. */
  lemma SameDrift(n: Node, m: Node, tip: StateMap)
    requires DriftOk(n, tip) && m.store == n.store && m.chain == n.chain
    requires forall y :: IsExecuted(m, y) <==> IsExecuted(n, y)
    requires forall y :: IsExecuted(n, y) && IsExecuted(m, y) ==> CandidatesAt(m, Next(m))[y] == CandidatesAt(n, Next(n))[y]
    ensures DriftOk(m, tip)
  {
  }

  lemma SameCandidates(cfg: Config, n: Node, m: Node, tip: StateMap)
    requires n.chain != [] && CandidatesOk(cfg, n, tip)
    requires m.store == n.store && m.chain == n.chain && m.candidates == n.candidates
    ensures CandidatesOk(cfg, m, tip)
  {
    forall x | x in CandidatesAt(m, Next(m)) ensures Accounted(cfg, m, tip, x, CandidatesAt(m, Next(m))[x]) {
      HeldCandidateOk(cfg, n, m, tip, x, CandidatesAt(n, Next(n))[x]);
    }
  }

  /** Votes, revotes and the roster do not enter the invariant. */
  lemma SameCore(cfg: Config, n: Node, m: Node, hist: seq<StateMap>)
    requires Inv(cfg, n, hist)
    requires m == n.(votes := m.votes, revotes := m.revotes, roster := m.roster)
    ensures Inv(cfg, m, hist)
  {
    SameCandidates(cfg, n, m, Tip(hist));
    SameDrift(n, m, Tip(hist));
  }

  /** The chain grew by the block with hash `x`, on a quorum of the stakes in force,
      and that block was not known to be invalid. */
  ghost predicate Certified(cfg: Config, n: Node, x: Hash, n': Node) {
    && |n'.chain| == |n.chain| + 1 && n'.chain[..|n.chain|] == n.chain
    && cfg.hash(n'.chain[|n.chain|].header) == x
    && x !in InvalidAt(n, Next(n))
    && HasQuorum(n.roster.validators, n'.chain[|n.chain|].attesters)
  }

  /** Either the chain stays, with every mark at the next height kept, or it grows by
      one certified block. */
  ghost predicate Advances(cfg: Config, n: Node, n': Node) {
    if |n'.chain| <= |n.chain|
    then n'.chain == n.chain && InvalidAt(n, Next(n)) <= InvalidAt(n', Next(n))
    else exists x :: Certified(cfg, n, x, n')
  }

  lemma FinalizeAdvances(cfg: Config, n: Node, hist: seq<StateMap>, x: Hash, roster: Roster, n': Node)
    returns (hist': seq<StateMap>)
    requires RootInjective(cfg) && Inv(cfg, n, hist)
    requires x in CandidatesAt(n, Next(n)) && x !in InvalidAt(n, Next(n))
    requires HasQuorum(n.roster.validators, Voters(n, Next(n), x))
    requires Finalizes(cfg, n, Next(n), x, roster, n')
    ensures Inv(cfg, n', hist') && hist <= hist' && Advances(cfg, n, n')
  {
    hist' := FinalizeKeeps(cfg, n, hist, x, roster, n');
    if |n'.chain| > |n.chain| { assert Certified(cfg, n, x, n'); }
  }

  lemma WinKeeps(cfg: Config, n: Node, hist: seq<StateMap>, x: Hash, roster: Roster, n': Node)
    returns (hist': seq<StateMap>)
    requires RootInjective(cfg) && Inv(cfg, n, hist)
    requires Wins(n, Next(n), x) && Finalizes(cfg, n, Next(n), x, roster, n')
    ensures Inv(cfg, n', hist') && hist <= hist' && Advances(cfg, n, n')
  {
    hist' := FinalizeAdvances(cfg, n, hist, x, roster, n');
  }

  lemma FollowKeeps(cfg: Config, n: Node, hist: seq<StateMap>, x: Hash, roster: Roster, n': Node)
    returns (hist': seq<StateMap>)
    requires RootInjective(cfg) && Inv(cfg, n, hist)
    requires Leads(cfg, n, Next(n), x) && Follows(cfg, n, Next(n), x, roster, n')
    ensures Inv(cfg, n', hist') && hist <= hist' && Advances(cfg, n, n')
  {
    hist' := hist;
    if WouldMove(cfg, n, Next(n), x) {
      var m := MoveVote(cfg, n, Next(n), x);
      SameCore(cfg, n, m, hist);
      if HasQuorum(m.roster.validators, Voters(m, Next(n), x)) {
        hist' := FinalizeAdvances(cfg, m, hist, x, roster, n');
        AdvancesThrough(cfg, n, m, n');
      }
    }
  }

  /** Re-evaluating the votes keeps the invariant, and finalizes only on a quorum. */
  lemma ReevaluateKeeps(cfg: Config, n: Node, hist: seq<StateMap>, h: nat, roster: Roster, n': Node)
    returns (hist': seq<StateMap>)
    requires RootInjective(cfg) && Inv(cfg, n, hist) && Reevaluates(cfg, n, h, roster, n')
    ensures Inv(cfg, n', hist') && hist <= hist' && Advances(cfg, n, n')
  {
    if h != Next(n) || VotesAt(n, h) == map[] {
      hist' := hist;
    } else if exists x :: Wins(n, h, x) {
      var x :| Wins(n, h, x) && Finalizes(cfg, n, h, x, roster, n');
      hist' := WinKeeps(cfg, n, hist, x, roster, n');
    } else if exists x :: Leads(cfg, n, h, x) {
      var x :| Leads(cfg, n, h, x) && Follows(cfg, n, h, x, roster, n');
      hist' := FollowKeeps(cfg, n, hist, x, roster, n');
    } else {
      hist' := hist;
    }
  }

  lemma AdvancesThrough(cfg: Config, n: Node, p: Node, n': Node)
    requires p.chain == n.chain && p.invalid == n.invalid && p.roster == n.roster && Advances(cfg, p, n')
    ensures Advances(cfg, n, n')
  {
    if |n'.chain| > |n.chain| {
      var x :| Certified(cfg, p, x, n');
      assert Certified(cfg, n, x, n');
    }
  }

  /** What every step keeps. */
  ghost predicate Kept(cfg: Config, n: Node, hist: seq<StateMap>, n': Node, hist': seq<StateMap>) {
    Inv(cfg, n', hist') && hist <= hist' && Advances(cfg, n, n')
  }

  /** A step from `n` re-evaluates an intermediate node `p` with the same chain, marks
      and roster. */
  lemma PreparedKeeps(cfg: Config, n: Node, hist: seq<StateMap>, p: Node, h: nat, roster: Roster, n': Node)
    returns (hist': seq<StateMap>)
    requires RootInjective(cfg) && Inv(cfg, p, hist) && Reevaluates(cfg, p, h, roster, n')
    requires p.chain == n.chain && p.invalid == n.invalid && p.roster == n.roster
    ensures Kept(cfg, n, hist, n', hist')
  {
    hist' := ReevaluateKeeps(cfg, p, hist, h, roster, n');
    AdvancesThrough(cfg, n, p, n');
  }

  lemma HoldCandidates(cfg: Config, n: Node, tip: StateMap, header: Header, ops: Ops)
    requires n.chain != [] && CandidatesOk(cfg, n, tip) && header.height == Next(n)
    requires header.parentHash == cfg.hash(n.chain[|n.chain| - 1].header)
    ensures CandidatesOk(cfg, Hold(cfg, n, header, ops), tip)
  {
  }

  lemma HoldExecuted(cfg: Config, n: Node, header: Header, ops: Ops)
    requires header.height == Next(n)
    ensures var m := Hold(cfg, n, header, ops);
      forall y :: (IsExecuted(m, y) <==> IsExecuted(n, y))
                  && (IsExecuted(n, y) ==> CandidatesAt(m, Next(m))[y] == CandidatesAt(n, Next(n))[y])
  {
  }

  lemma HoldKeeps(cfg: Config, n: Node, hist: seq<StateMap>, header: Header, ops: Ops)
    requires Inv(cfg, n, hist) && header.height == Next(n)
    requires header.parentHash == cfg.hash(n.chain[|n.chain| - 1].header)
    ensures Inv(cfg, Hold(cfg, n, header, ops), hist)
  {
    HoldCandidates(cfg, n, Tip(hist), header, ops);
    HoldExecuted(cfg, n, header, ops);
    SameDrift(n, Hold(cfg, n, header, ops), Tip(hist));
  }

  lemma ProduceKeeps(cfg: Config, n: Node, hist: seq<StateMap>, e: Event, n': Node)
    returns (hist': seq<StateMap>)
    requires RootInjective(cfg) && Inv(cfg, n, hist)
    requires e.Produce? && Step(cfg, n, e, n') && !Overwrites(cfg, n, e.ops)
    ensures Kept(cfg, n, hist, n', hist')
  {
    var m :| Restores(cfg, n, m) && Reevaluates(cfg, Propose(cfg, m, e.ops), Next(m), e.roster, n');
    RestoreExact(cfg, n, hist, m);
    RestoredSafe(cfg, n, hist, m, e.ops);
    ProposeKeeps(cfg, m, hist, e.ops);
    hist' := PreparedKeeps(cfg, n, hist, Propose(cfg, m, e.ops), Next(m), e.roster, n');
  }

  /** After an undo no executed candidate is left to lose. */
  lemma RestoredSafe(cfg: Config, n: Node, hist: seq<StateMap>, m: Node, ops: Ops)
    requires RootInjective(cfg) && Inv(cfg, n, hist) && !Overwrites(cfg, n, ops)
    requires StateOf(n.store) == Tip(hist) ==> m == n
    requires StateOf(n.store) != Tip(hist) ==> m.candidates == DropExecuted(n)
    ensures !Overwrites(cfg, m, ops)
  {
    if StateOf(n.store) != Tip(hist) {
      forall x ensures !IsExecuted(m, x) { }
    }
  }

  lemma AcceptKeeps(cfg: Config, n: Node, hist: seq<StateMap>, e: Event, n': Node)
    returns (hist': seq<StateMap>)
    requires RootInjective(cfg) && Inv(cfg, n, hist) && e.Accept? && Step(cfg, n, e, n')
    ensures Kept(cfg, n, hist, n', hist')
  {
    if Acceptable(cfg, n, e.header, e.signature, e.now, e.permitted) {
      HoldKeeps(cfg, n, hist, e.header, e.ops);
      hist' := PreparedKeeps(cfg, n, hist, Hold(cfg, n, e.header, e.ops), e.header.height, e.roster, n');
    } else {
      hist' := hist;
    }
  }

  lemma AttestKeeps(cfg: Config, n: Node, hist: seq<StateMap>, e: Event, n': Node)
    returns (hist': seq<StateMap>)
    requires RootInjective(cfg) && Inv(cfg, n, hist) && e.Attest? && Step(cfg, n, e, n')
    ensures Kept(cfg, n, hist, n', hist')
  {
    if VoteAdmitted(n, e.voter, e.height) {
      var p := RecordVote(n, e.voter, e.height, e.hash);
      SameCore(cfg, n, p, hist);
      hist' := PreparedKeeps(cfg, n, hist, p, e.height, e.roster, n');
    } else {
      hist' := hist;
    }
  }

  /** Every step other than the unsafe call keeps the invariant. */
  lemma StepKeeps(cfg: Config, n: Node, hist: seq<StateMap>, e: Event, n': Node)
    returns (hist': seq<StateMap>)
    requires RootInjective(cfg) && Inv(cfg, n, hist) && Step(cfg, n, e, n')
    requires !(e.Produce? && Overwrites(cfg, n, e.ops))
    ensures Kept(cfg, n, hist, n', hist')
  {
    match e {
      case Produce(_, _) => hist' := ProduceKeeps(cfg, n, hist, e, n');
      case Accept(_, _, _, _, _, _) => hist' := AcceptKeeps(cfg, n, hist, e, n');
      case Attest(_, _, _, _) => hist' := AttestKeeps(cfg, n, hist, e, n');
      case Jailing(_) =>
        SameCore(cfg, n, n', hist);
        hist' := hist;
    }
  }

  // ---------- Whole runs ----------

  ghost predicate Run(cfg: Config, states: seq<Node>, events: seq<Event>) {
    && |states| == |events| + 1
    && forall i {:trigger events[i]} :: 0 <= i < |events| ==> Step(cfg, states[i], events[i], states[i + 1])
  }

  /** No step of the run is the unsafe call. */
  ghost predicate SafeRun(cfg: Config, states: seq<Node>, events: seq<Event>) {
    && Run(cfg, states, events)
    && forall i {:trigger events[i]} :: 0 <= i < |events| && events[i].Produce? ==> !Overwrites(cfg, states[i], events[i].ops)
  }

  /** In every state of a live run the invariant holds, and the chain only ever grows. */
  lemma {:induction false} RunInvariant(cfg: Config, states: seq<Node>, events: seq<Event>, hist: seq<StateMap>, i: nat)
    returns (hist': seq<StateMap>)
    requires RootInjective(cfg) && SafeRun(cfg, states, events) && Inv(cfg, states[0], hist) && i < |states|
    ensures Inv(cfg, states[i], hist') && hist <= hist' && states[0].chain <= states[i].chain
  {
    if i == 0 {
      hist' := hist;
    } else {
      var h := RunInvariant(cfg, states, events, hist, i - 1);
      hist' := StepKeeps(cfg, states[i - 1], h, events[i - 1], states[i]);
      ChainExtends(cfg, states[i - 1], states[i]);
    }
  }

  lemma ChainExtends(cfg: Config, n: Node, n': Node)
    requires Advances(cfg, n, n')
    ensures n.chain <= n'.chain
  {
  }

  /** Once a block at the next height has been proved invalid, either the height is
      still open and the mark stands, or another block has taken the height. */
  lemma {:induction false} InvalidStaysOut(cfg: Config, states: seq<Node>, events: seq<Event>, hist: seq<StateMap>,
                                           i: nat, j: nat, x: Hash)
    requires RootInjective(cfg) && SafeRun(cfg, states, events) && Inv(cfg, states[0], hist)
    requires i <= j < |states| && x in InvalidAt(states[i], Next(states[i]))
    ensures states[i].chain <= states[j].chain
    ensures if |states[j].chain| == |states[i].chain| then x in InvalidAt(states[j], Next(states[i]))
            else cfg.hash(states[j].chain[|states[i].chain|].header) != x
  {
    if i < j {
      InvalidStaysOut(cfg, states, events, hist, i, j - 1, x);
      RunAdvances(cfg, states, events, hist, j - 1);
      MarkStep(cfg, states[i].chain, Next(states[i]), states[j - 1], states[j], x);
    }
  }

  lemma RunAdvances(cfg: Config, states: seq<Node>, events: seq<Event>, hist: seq<StateMap>, i: nat)
    requires RootInjective(cfg) && SafeRun(cfg, states, events) && Inv(cfg, states[0], hist) && i < |events|
    ensures Advances(cfg, states[i], states[i + 1])
  {
    var h := RunInvariant(cfg, states, events, hist, i);
    var _ := StepKeeps(cfg, states[i], h, events[i], states[i + 1]);
  }

  lemma MarkStep(cfg: Config, c: seq<FinalizedBlock>, h: nat, n: Node, n': Node, x: Hash)
    requires Advances(cfg, n, n') && c <= n.chain
    requires n.chain == c ==> h == Next(n)
    requires if |n.chain| == |c| then x in InvalidAt(n, h) else cfg.hash(n.chain[|c|].header) != x
    ensures c <= n'.chain
    ensures if |n'.chain| == |c| then x in InvalidAt(n', h) else cfg.hash(n'.chain[|c|].header) != x
  {
  }

  /** In every state the chain is linked and marks are at the next height only. */
  lemma RunLinked(cfg: Config, states: seq<Node>, events: seq<Event>, hist: seq<StateMap>, i: nat)
    requires RootInjective(cfg) && SafeRun(cfg, states, events) && Inv(cfg, states[0], hist) && i < |states|
    ensures Linked(cfg, states[i].chain) && states[i].invalid.Keys <= {Next(states[i])}
  {
    var _ := RunInvariant(cfg, states, events, hist, i);
  }

  /** A hash marked execution-invalid at a height is never on the chain at that height. */
  lemma InvalidNeverFinalized(cfg: Config, states: seq<Node>, events: seq<Event>, hist: seq<StateMap>,
                              i: nat, j: nat, h: nat, x: Hash, k: nat)
    requires RootInjective(cfg) && SafeRun(cfg, states, events) && Inv(cfg, states[0], hist)
    requires i <= j < |states| && x in InvalidAt(states[i], h)
    requires k < |states[j].chain| && states[j].chain[k].header.height == h
    ensures cfg.hash(states[j].chain[k].header) != x
  {
    RunLinked(cfg, states, events, hist, i);
    RunLinked(cfg, states, events, hist, j);
    assert h == Next(states[i]);
    InvalidStaysOut(cfg, states, events, hist, i, j, x);
    var c, t := states[j].chain, |states[i].chain|;
    HeightsCount(cfg, c, t - 1, k);
    assert c[t - 1] == states[i].chain[t - 1];
  }

  lemma {:induction false} HeightsCount(cfg: Config, c: seq<FinalizedBlock>, a: nat, b: nat)
    requires Linked(cfg, c) && a < |c| && b < |c|
    ensures c[b].header.height - c[a].header.height == b - a
  {
    if a < b { HeightsCount(cfg, c, a, b - 1); }
    if b < a { HeightsCount(cfg, c, a - 1, b); }
  }

  // ---------- Proposals and peers ----------

  /** What a producer makes passes every check of a peer on the same tip, as long as the
      peer counts the producer as active, holds no mark against the block, and the clocks
      are within the allowed drift. */
  lemma ProposalAccepted(cfg: Config, n: Node, ops: Ops, peerId: Id, peer: Node, signature: Bytes, now: nat)
    requires n.chain != [] && Linked(cfg, peer.chain) && !peer.resyncing
    requires n.chain[|n.chain| - 1] == peer.chain[|peer.chain| - 1]
    requires IsActive(peer.roster.validators, cfg.self)
    requires var x := cfg.hash(Proposal(cfg, n, ops));
      x !in InvalidAt(peer, Next(peer)) && |signature| == 64 && cfg.verify(cfg.self, x, signature)
    requires cfg.blockTime > 0
    requires n.chain[|n.chain| - 1].header.timestamp + cfg.blockTime <= Min(MAX_U64, now + MAX_TIMESTAMP_DRIFT)
    ensures Acceptable(cfg.(self := peerId), peer, Proposal(cfg, n, ops), signature, now, true)
  {
    var header := Proposal(cfg, n, ops);
    OrderListsActive(peer.roster.validators, header.height, peer.roster.seed, cfg.draw, cfg.self);
    forall i | 0 <= i < |peer.chain| ensures peer.chain[i].header.height != header.height {
      HeightsCount(cfg, peer.chain, i, |peer.chain| - 1);
    }
  }
}
