/** When a node's validator set changes, and when a node keeps quiet. */
module RosterMoves {
  import opened Types
  import opened Validators
  import opened Engine
  import opened EngineRuns
  import Safety
  import Origins
  import Ballots

  /** The set and seed change exactly with the chain, to what the epoch makes of them; and a
      node that is not an active validator casts no vote. */
  ghost predicate Steady(cfg: Config, n: Node, roster: Roster, n': Node) {
    && n'.roster == (if n'.chain == n.chain then n.roster else roster)
    && (!IsActive(n.roster.validators, cfg.self) ==> n'.revotes == n.revotes)
  }

  lemma ConcludeSteady(cfg: Config, m: Node, h: nat, pb: Pending, attesters: set<Id>, roster: Roster)
    ensures var r := Forget(Conclude(cfg, m, h, pb, attesters, roster), h);
      r.roster == (if r.chain == m.chain then m.roster else roster) && r.revotes == m.revotes
  {
    match pb.execution
    case Some(e) => Longer(m.chain, FinalizedBlock(pb.header, e.root, attesters, pb.ops));
    case None => Longer(m.chain, FinalizedBlock(pb.header, pb.header.stateRoot, attesters, pb.ops));
  }

  lemma Longer(chain: seq<FinalizedBlock>, b: FinalizedBlock)
    ensures chain + [b] != chain
  {
    assert |chain + [b]| == |chain| + 1;
  }

  lemma FinalizeSteady(cfg: Config, n: Node, h: nat, x: Hash, roster: Roster, n': Node)
    requires Finalizes(cfg, n, h, x, roster, n')
    ensures n'.roster == (if n'.chain == n.chain then n.roster else roster) && n'.revotes == n.revotes
  {
    if x in CandidatesAt(n, h) {
      var pb, taken := CandidatesAt(n, h)[x], TakeCandidate(n, h, x);
      var m :| ReadyFor(cfg, taken, pb, m) && n' == Forget(Conclude(cfg, m, h, pb, Voters(n, h, x), roster), h);
      Safety.ReadyFrame(cfg, taken, pb, m);
      ConcludeSteady(cfg, m, h, pb, Voters(n, h, x), roster);
    }
  }

  lemma FollowSteady(cfg: Config, n: Node, h: nat, x: Hash, roster: Roster, n': Node)
    requires Follows(cfg, n, h, x, roster, n')
    ensures Steady(cfg, n, roster, n')
  {
    if WouldMove(cfg, n, h, x) {
      var m := MoveVote(cfg, n, h, x);
      if HasQuorum(m.roster.validators, Voters(m, h, x)) { FinalizeSteady(cfg, m, h, x, roster, n'); }
    }
  }

  lemma ReevaluateSteady(cfg: Config, n: Node, h: nat, roster: Roster, n': Node)
    requires Reevaluates(cfg, n, h, roster, n')
    ensures Steady(cfg, n, roster, n')
  {
    if h != Next(n) || VotesAt(n, h) == map[] {
    } else if exists x :: Wins(n, h, x) {
      var x :| Wins(n, h, x) && Finalizes(cfg, n, h, x, roster, n');
      FinalizeSteady(cfg, n, h, x, roster, n');
    } else if exists x :: Leads(cfg, n, h, x) {
      var x :| Leads(cfg, n, h, x) && Follows(cfg, n, h, x, roster, n');
      FollowSteady(cfg, n, h, x, roster, n');
    }
  }

  lemma ProduceSteady(cfg: Config, n: Node, e: Event, n': Node)
    requires e.Produce? && Step(cfg, n, e, n')
    ensures n'.roster == (if n'.chain == n.chain then n.roster else e.roster)
  {
    var m :| Restores(cfg, n, m) && Reevaluates(cfg, Propose(cfg, m, e.ops), Next(m), e.roster, n');
    ReevaluateSteady(cfg, Propose(cfg, m, e.ops), Next(m), e.roster, n');
  }

  lemma AcceptSteady(cfg: Config, n: Node, e: Event, n': Node)
    requires e.Accept? && Step(cfg, n, e, n')
    ensures Steady(cfg, n, e.roster, n')
  {
    Origins.AcceptReceived(cfg, n, e, n');
    if n' != n { ReevaluateSteady(cfg, Hold(cfg, n, e.header, e.ops), e.header.height, e.roster, n'); }
  }

  lemma AttestSteady(cfg: Config, n: Node, e: Event, n': Node)
    requires e.Attest? && Step(cfg, n, e, n')
    ensures Steady(cfg, n, e.roster, n')
  {
    Ballots.AttestCases(cfg, n, e, n');
    if n' != n { ReevaluateSteady(cfg, RecordVote(n, e.voter, e.height, e.hash), e.height, e.roster, n'); }
  }

  /** Apart from jailing, a step changes the validator set and seed if and only if it
      finalizes a block, and then to the outcome of that block's epoch transition. */
  lemma RosterFollowsChain(cfg: Config, n: Node, e: Event, n': Node)
    requires !e.Jailing? && Step(cfg, n, e, n')
    ensures n'.roster == if n'.chain == n.chain then n.roster else e.roster
  {
    match e
    case Produce(_, _) => ProduceSteady(cfg, n, e, n');
    case Accept(_, _, _, _, _, _) => AcceptSteady(cfg, n, e, n');
    case Attest(_, _, _, _) => AttestSteady(cfg, n, e, n');
  }

  lemma StepQuiet(cfg: Config, n: Node, e: Event, n': Node)
    requires !IsActive(n.roster.validators, cfg.self) && !e.Produce? && Step(cfg, n, e, n')
    ensures n'.revotes == n.revotes
  {
    match e
    case Accept(_, _, _, _, _, _) => AcceptSteady(cfg, n, e, n');
    case Attest(_, _, _, _) => AttestSteady(cfg, n, e, n');
    case Jailing(_) =>
  }

  /** While a node is not an active validator and produces nothing, it casts no vote, whatever
      it receives. */
  lemma {:induction false} InactiveQuiet(cfg: Config, states: seq<Node>, events: seq<Event>, i: nat)
    requires Run(cfg, states, events) && i < |states|
    requires forall k :: 0 <= k < i ==> !IsActive(states[k].roster.validators, cfg.self) && !events[k].Produce?
    ensures states[i].revotes == states[0].revotes
  {
    if i > 0 {
      InactiveQuiet(cfg, states, events, i - 1);
      StepQuiet(cfg, states[i - 1], events[i - 1], states[i]);
    }
  }
}
