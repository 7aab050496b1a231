/** What a node owes its votes: a block is finalized, or proved invalid, as soon as less
    than a third of the stake is missing. */
module Progress {
  import opened Types
  import opened Storage
  import opened Validators
  import opened Engine
  import opened EngineInvariant
  import opened EngineSteps
  import opened EngineRuns
  import opened ForkChoice
  import Safety

  /** Less than a third of the stake does not vote for this hash. */
  predicate Backed(n: Node, votes: map<Id, Hash>, x: Hash) {
    MissingStake(n.roster.validators, VotersFor(votes, x)) * 3 < TotalStake(n.roster.validators)
  }

  predicate Open(n: Node, x: Hash) { x in CandidatesAt(n, Next(n)) && x !in InvalidAt(n, Next(n)) }

  /** No held block waits for a decision that its votes already allow. */
  ghost predicate Settled(n: Node) {
    forall x :: Open(n, x) ==> !Backed(n, VotesAt(n, Next(n)), x)
  }

  lemma BackedWins(n: Node, x: Hash)
    requires Open(n, x)
    ensures Wins(n, Next(n), x) <==> Backed(n, VotesAt(n, Next(n)), x)
  {
    var voters := Voters(n, Next(n), x);
    QuorumIff(n.roster.validators, voters);
    if Backed(n, VotesAt(n, Next(n)), x) {
      assert voters != {} by { if voters == {} { NoStake(n.roster.validators); } }
      var v :| v in voters;
      assert VotesAt(n, Next(n))[v] == x;
    }
  }

  /** After a finalization nothing is held. */
  lemma FinalizeEmpties(cfg: Config, n: Node, hist: seq<StateMap>, x: Hash, roster: Roster, n': Node)
    requires Inv(cfg, n, hist) && x in CandidatesAt(n, Next(n)) && Finalizes(cfg, n, Next(n), x, roster, n')
    ensures n'.candidates == map[]
  {
    var h, pb := Next(n), CandidatesAt(n, Next(n))[x];
    var m :| ReadyFor(cfg, TakeCandidate(n, h, x), pb, m)
             && n' == Forget(Conclude(cfg, m, h, pb, Voters(n, h, x), roster), h);
    var taken := TakeCandidate(n, h, x);
    assert taken.candidates.Keys <= {h};
    Safety.ReadyFrame(cfg, taken, pb, m);
    Safety.ConcludeAppends(cfg, m, h, pb, Voters(n, h, x), roster);
    NoneAbove(m.candidates, h);
  }

  lemma FollowSettles(cfg: Config, n: Node, hist: seq<StateMap>, x: Hash, roster: Roster, n': Node)
    requires Inv(cfg, n, hist) && Settled(n) && Leads(cfg, n, Next(n), x) && Follows(cfg, n, Next(n), x, roster, n')
    ensures Settled(n')
  {
    if WouldMove(cfg, n, Next(n), x) {
      var h, m := Next(n), MoveVote(cfg, n, Next(n), x);
      if HasQuorum(m.roster.validators, Voters(m, h, x)) {
        SameCore(cfg, n, m, hist);
        FinalizeEmpties(cfg, m, hist, x, roster, n');
      } else {
        QuorumIff(n.roster.validators, Voters(m, h, x));
        forall y | Open(m, y) && y != x ensures !Backed(m, VotesAt(m, h), y) {
          assert Open(n, y);
          assert VotersFor(VotesAt(m, h), y) <= VotersFor(VotesAt(n, h), y);
          MissingGrows(n.roster.validators, VotersFor(VotesAt(m, h), y), VotersFor(VotesAt(n, h), y));
        }
      }
    }
  }

  lemma NoWinnerSettled(n: Node)
    requires forall x :: !Wins(n, Next(n), x)
    ensures Settled(n)
  {
    forall x | Open(n, x) ensures !Backed(n, VotesAt(n, Next(n)), x) { BackedWins(n, x); }
  }

  /** Re-evaluating the next height leaves nothing that waits. */
  lemma ReevaluateSettles(cfg: Config, n: Node, hist: seq<StateMap>, h: nat, roster: Roster, n': Node)
    requires Inv(cfg, n, hist) && h == Next(n) && Reevaluates(cfg, n, h, roster, n')
    ensures Settled(n')
  {
    if VotesAt(n, h) == map[] {
      NoWinnerSettled(n);
    } else if exists x :: Wins(n, h, x) {
      var x :| Wins(n, h, x) && Finalizes(cfg, n, h, x, roster, n');
      FinalizeEmpties(cfg, n, hist, x, roster, n');
    } else {
      NoWinnerSettled(n);
      if exists x :: Leads(cfg, n, h, x) {
        var x :| Leads(cfg, n, h, x) && Follows(cfg, n, h, x, roster, n');
        FollowSettles(cfg, n, hist, x, roster, n');
      }
    }
  }

  /** And a block that had its votes is now on the chain, or marked invalid. */
  lemma ReevaluateDecides(cfg: Config, n: Node, hist: seq<StateMap>, roster: Roster, n': Node, x: Hash)
    requires RootInjective(cfg) && Inv(cfg, n, hist) && Reevaluates(cfg, n, Next(n), roster, n')
    requires Open(n, x) && Backed(n, VotesAt(n, Next(n)), x)
    ensures Decided(cfg, n, n', x)
  {
    var h := Next(n);
    BackedWins(n, x);
    var y :| Wins(n, h, y) && Finalizes(cfg, n, h, y, roster, n');
    WinnerUnique(n, h, x, y);
    var _ := FinalizeKeeps(cfg, n, hist, x, roster, n');
  }

  ghost predicate Decided(cfg: Config, n: Node, n': Node, x: Hash) {
    || (n.chain <= n'.chain && |n'.chain| == |n.chain| + 1 && cfg.hash(n'.chain[|n.chain|].header) == x)
    || (n'.chain == n.chain && x in InvalidAt(n', Next(n)))
  }

  /** Where no block has its votes yet, an active node ends with its own vote on the leader,
      or on a block that its vote has just decided. */
  lemma VoteFollows(cfg: Config, n: Node, hist: seq<StateMap>, roster: Roster, n': Node, x: Hash)
    requires RootInjective(cfg) && Inv(cfg, n, hist) && Reevaluates(cfg, n, Next(n), roster, n') && Settled(n)
    requires IsActive(n.roster.validators, cfg.self) && Leads(cfg, n, Next(n), x)
    ensures || Decided(cfg, n, n', x)
            || (n'.chain == n.chain && cfg.self in VotesAt(n', Next(n)) && VotesAt(n', Next(n))[cfg.self] == x)
  {
    var h := Next(n);
    forall y ensures !Wins(n, h, y) { if Wins(n, h, y) { BackedWins(n, y); } }
    var y :| Leads(cfg, n, h, y) && Follows(cfg, n, h, y, roster, n');
    LeaderUnique(cfg, n, h, x, y);
    FollowDecides(cfg, n, hist, x, roster, n');
  }

  lemma FollowDecides(cfg: Config, n: Node, hist: seq<StateMap>, x: Hash, roster: Roster, n': Node)
    requires RootInjective(cfg) && Inv(cfg, n, hist) && IsActive(n.roster.validators, cfg.self)
    requires Viable(n, Next(n), x) && Follows(cfg, n, Next(n), x, roster, n')
    ensures || Decided(cfg, n, n', x)
            || (n'.chain == n.chain && cfg.self in VotesAt(n', Next(n)) && VotesAt(n', Next(n))[cfg.self] == x)
  {
    if WouldMove(cfg, n, Next(n), x) {
      var m := MoveVote(cfg, n, Next(n), x);
      SameCore(cfg, n, m, hist);
      if HasQuorum(m.roster.validators, Voters(m, Next(n), x)) { var _ := FinalizeKeeps(cfg, m, hist, x, roster, n'); }
    }
  }

  // ---------- Steps ----------

  /** An attestation for the next height by an active validator decides every held block
      whose missing stake it brings below a third. */
  lemma AttestDecides(cfg: Config, n: Node, hist: seq<StateMap>, voter: Id, y: Hash, roster: Roster, n': Node, x: Hash)
    requires RootInjective(cfg) && Inv(cfg, n, hist) && Step(cfg, n, Attest(voter, Next(n), y, roster), n')
    requires IsActive(n.roster.validators, voter)
    requires Open(n, x) && Backed(n, VotesAt(n, Next(n))[voter := y], x)
    ensures Decided(cfg, n, n', x)
  {
    var p := RecordVote(n, voter, Next(n), y);
    SameCore(cfg, n, p, hist);
    assert VotesAt(p, Next(p)) == VotesAt(n, Next(n))[voter := y];
    ReevaluateDecides(cfg, p, hist, roster, n', x);
  }

  /** A block that arrives after its votes is decided when it arrives. */
  lemma ArrivalDecides(cfg: Config, n: Node, hist: seq<StateMap>, e: Event, n': Node)
    requires RootInjective(cfg) && Inv(cfg, n, hist) && e.Accept? && Step(cfg, n, e, n')
    requires Acceptable(cfg, n, e.header, e.signature, e.now, e.permitted)
    requires Backed(n, VotesAt(n, Next(n)), cfg.hash(e.header))
    ensures Decided(cfg, n, n', cfg.hash(e.header))
  {
    var p := Hold(cfg, n, e.header, e.ops);
    HoldKeeps(cfg, n, hist, e.header, e.ops);
    assert Open(p, cfg.hash(e.header)) && VotesAt(p, Next(p)) == VotesAt(n, Next(n));
    ReevaluateDecides(cfg, p, hist, e.roster, n', cfg.hash(e.header));
  }

  lemma SameVotesSettled(n: Node, m: Node)
    requires Settled(n) && m.chain == n.chain && m.candidates == n.candidates && m.invalid == n.invalid
    requires VotesAt(m, Next(m)) == VotesAt(n, Next(n)) && Committed(m.roster.validators) == Committed(n.roster.validators)
    ensures Settled(m)
  {
    forall x | Open(m, x) ensures !Backed(m, VotesAt(m, Next(m)), x) {
      assert Open(n, x) && !Backed(n, VotesAt(n, Next(n)), x);
      var voters := VotersFor(VotesAt(n, Next(n)), x);
      StakeIsCommitted(m.roster.validators, n.roster.validators, voters);
      StakeSplits(m.roster.validators, voters);
      StakeSplits(n.roster.validators, voters);
    }
  }

  lemma PreparedSettles(cfg: Config, n: Node, p: Node, hist: seq<StateMap>, h: nat, roster: Roster, n': Node)
    requires p.chain == n.chain && h == Next(n) && Inv(cfg, p, hist) && Reevaluates(cfg, p, h, roster, n')
    ensures Settled(n')
  {
    ReevaluateSettles(cfg, p, hist, h, roster, n');
  }

  lemma ProduceSettles(cfg: Config, n: Node, hist: seq<StateMap>, e: Event, n': Node)
    requires RootInjective(cfg) && Inv(cfg, n, hist)
    requires e.Produce? && Step(cfg, n, e, n') && !Overwrites(cfg, n, e.ops)
    ensures Settled(n')
  {
    var m :| Restores(cfg, n, m) && Reevaluates(cfg, Propose(cfg, m, e.ops), Next(m), e.roster, n');
    RestoreExact(cfg, n, hist, m);
    RestoredSafe(cfg, n, hist, m, e.ops);
    ProposeKeeps(cfg, m, hist, e.ops);
    PreparedSettles(cfg, m, Propose(cfg, m, e.ops), hist, Next(m), e.roster, n');
  }

  lemma HeldSettles(cfg: Config, n: Node, hist: seq<StateMap>, header: Header, ops: Ops, roster: Roster, n': Node)
    requires Inv(cfg, n, hist) && header.height == Next(n)
    requires header.parentHash == cfg.hash(n.chain[|n.chain| - 1].header)
    requires Reevaluates(cfg, Hold(cfg, n, header, ops), header.height, roster, n')
    ensures Settled(n')
  {
    HoldKeeps(cfg, n, hist, header, ops);
    PreparedSettles(cfg, n, Hold(cfg, n, header, ops), hist, header.height, roster, n');
  }

  lemma AcceptCases(cfg: Config, n: Node, e: Event, n': Node)
    requires n.chain != [] && e.Accept? && Step(cfg, n, e, n')
    ensures || n' == n
            || (e.header.height == Next(n) && e.header.parentHash == cfg.hash(n.chain[|n.chain| - 1].header)
                && Reevaluates(cfg, Hold(cfg, n, e.header, e.ops), e.header.height, e.roster, n'))
  {
  }

  lemma AcceptSettles(cfg: Config, n: Node, hist: seq<StateMap>, e: Event, n': Node)
    requires Inv(cfg, n, hist) && Settled(n) && e.Accept? && Step(cfg, n, e, n')
    ensures Settled(n')
  {
    AcceptCases(cfg, n, e, n');
    if n' != n {
      HeldSettles(cfg, n, hist, e.header, e.ops, e.roster, n');
    }
  }

  lemma AttestSettles(cfg: Config, n: Node, hist: seq<StateMap>, e: Event, n': Node)
    requires Inv(cfg, n, hist) && Settled(n) && e.Attest? && Step(cfg, n, e, n')
    ensures Settled(n')
  {
    if VoteAdmitted(n, e.voter, e.height) {
      var p := RecordVote(n, e.voter, e.height, e.hash);
      if e.height == Next(n) {
        SameCore(cfg, n, p, hist);
        ReevaluateSettles(cfg, p, hist, e.height, e.roster, n');
      } else {
        SameVotesSettled(n, p);
      }
    }
  }

  /** Jailing is local: it moves no committed stake. */
  ghost predicate StakesStand(n: Node, e: Event) {
    e.Jailing? ==> Committed(e.roster.validators) == Committed(n.roster.validators)
  }

  lemma StepSettles(cfg: Config, n: Node, hist: seq<StateMap>, e: Event, n': Node)
    requires RootInjective(cfg) && Inv(cfg, n, hist) && Settled(n) && Step(cfg, n, e, n')
    requires !(e.Produce? && Overwrites(cfg, n, e.ops)) && StakesStand(n, e)
    ensures Settled(n')
  {
    match e
    case Produce(_, _) => ProduceSettles(cfg, n, hist, e, n');
    case Accept(_, _, _, _, _, _) => AcceptSettles(cfg, n, hist, e, n');
    case Attest(_, _, _, _) => AttestSettles(cfg, n, hist, e, n');
    case Jailing(_) => SameVotesSettled(n, n');
  }

  /** In every state of every live run, whatever was produced, received, voted or jailed: no
      block that the node holds and has not found invalid has less than a third of the stake
      missing. The moment it does, it is finalized or marked. */
  lemma {:induction false} RunSettled(cfg: Config, states: seq<Node>, events: seq<Event>, hist: seq<StateMap>, i: nat)
    requires RootInjective(cfg) && SafeRun(cfg, states, events) && Inv(cfg, states[0], hist) && Settled(states[0])
    requires forall k {:trigger events[k]} :: 0 <= k < |events| ==> StakesStand(states[k], events[k])
    requires i < |states|
    ensures Settled(states[i])
  {
    if i > 0 {
      RunSettled(cfg, states, events, hist, i - 1);
      var h := RunInvariant(cfg, states, events, hist, i - 1);
      StepSettles(cfg, states[i - 1], h, events[i - 1], states[i]);
    }
  }
}
