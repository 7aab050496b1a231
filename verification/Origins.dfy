/** Where blocks come from: everything a node holds or has finalized was made by itself or
    arrived with a valid signature of an active proposer. */
module Origins {
  import opened Types
  import opened Storage
  import opened Validators
  import opened Engine
  import opened EngineInvariant
  import opened EngineSteps
  import opened EngineRuns
  import Safety

  // ---------- Origins ----------

  /** The event produced this block on the state of `n`. */
  ghost predicate Made(cfg: Config, n: Node, e: Event, header: Header, ops: Ops) {
    && e.Produce? && e.ops == ops && header.proposer == cfg.self
    && header.height == Next(n) && header.epoch == header.height / 100 && header.opsRoot == cfg.opsRoot(ops)
    && (n.chain != [] ==>
          var tip := n.chain[|n.chain| - 1].header;
          && header.parentHash == cfg.hash(tip)
          && header.timestamp == Min(tip.timestamp + cfg.blockTime, MAX_U64))
    && exists m :: Restores(cfg, n, m) && header.stateRoot == ExecutedRoot(cfg, m.store, ops, header.height)
                   && header.receiptsRoot == cfg.receiptsRoot(m.store, ops, header.height)
  }

  /** The event delivered this block to `n`, signed by an active proposer, for the next
      height, on the tip, in time, and neither barred nor known to be invalid. */
  ghost predicate Received(cfg: Config, n: Node, e: Event, header: Header, ops: Ops) {
    && e.Accept? && e.header == header && e.ops == ops
    && |e.signature| == 64 && cfg.verify(header.proposer, cfg.hash(header), e.signature)
    && IsActive(n.roster.validators, header.proposer)
    && header.height == Next(n) && header.epoch == header.height / 100
    && header.timestamp <= e.now + 30_000 && e.permitted && !n.resyncing
    && cfg.hash(header) !in InvalidAt(n, Next(n))
    && (n.chain != [] ==>
          var tip := n.chain[|n.chain| - 1].header;
          header.parentHash == cfg.hash(tip) && header.timestamp > tip.timestamp)
  }

  ghost predicate Arises(cfg: Config, n: Node, e: Event, header: Header, ops: Ops) {
    Made(cfg, n, e, header, ops) || Received(cfg, n, e, header, ops)
  }

  // ---------- What one step can add ----------

  type Known = iset<(Header, Ops)>

  /** Every candidate, and every block from position `from` on, is known. */
  ghost predicate AllKnown(n: Node, from: nat, known: Known) {
    && (forall h, x :: h in n.candidates && x in n.candidates[h] ==>
          (n.candidates[h][x].header, n.candidates[h][x].ops) in known)
    && (forall j :: from <= j < |n.chain| ==> (n.chain[j].header, n.chain[j].ops) in known)
  }

  lemma KnownKept(n: Node, h: nat, x: Hash, m: Node, from: nat, known: Known)
    requires AllKnown(n, from, known) && m.chain == n.chain
    requires var taken := TakeCandidate(n, h, x); m.candidates == taken.candidates || m.candidates == DropExecuted(taken)
    ensures AllKnown(m, from, known)
  {
  }

  lemma FinalizeKnown(cfg: Config, n: Node, h: nat, x: Hash, roster: Roster, n': Node, from: nat, known: Known)
    requires AllKnown(n, from, known) && Finalizes(cfg, n, h, x, roster, n')
    ensures AllKnown(n', from, known) && n.chain <= n'.chain
  {
    if x in CandidatesAt(n, h) {
      var pb, taken, voters := CandidatesAt(n, h)[x], TakeCandidate(n, h, x), Voters(n, h, x);
      var m :| ReadyFor(cfg, taken, pb, m) && n' == Forget(Conclude(cfg, m, h, pb, voters, roster), h);
      assert m.chain == n.chain && AllKnown(m, from, known) by {
        Safety.ReadyFrame(cfg, taken, pb, m);
        KnownKept(n, h, x, m, from, known);
      }
      ConcludeKnown(cfg, m, h, pb, voters, roster, from, known);
    }
  }

  lemma ConcludeKnown(cfg: Config, m: Node, h: nat, pb: Pending, voters: set<Id>, roster: Roster, from: nat, known: Known)
    requires AllKnown(m, from, known) && (pb.header, pb.ops) in known
    ensures var n' := Forget(Conclude(cfg, m, h, pb, voters, roster), h); AllKnown(n', from, known) && m.chain <= n'.chain
  {
    var r := Conclude(cfg, m, h, pb, voters, roster);
    Safety.ConcludeAppends(cfg, m, h, pb, voters, roster);
    AppendKnown(m, pb, voters, r, Forget(r, h), from, known);
  }

  lemma AppendKnown(m: Node, pb: Pending, voters: set<Id>, r: Node, n': Node, from: nat, known: Known)
    requires AllKnown(m, from, known) && (pb.header, pb.ops) in known && Safety.Appended(m, pb, voters, n')
    requires r.candidates == m.candidates && exists h :: n' == Forget(r, h)
    ensures AllKnown(n', from, known) && m.chain <= n'.chain
  {
  }

  lemma ReevaluateKnown(cfg: Config, n: Node, h: nat, roster: Roster, n': Node, from: nat, known: Known)
    requires AllKnown(n, from, known) && Reevaluates(cfg, n, h, roster, n')
    ensures AllKnown(n', from, known) && n.chain <= n'.chain
  {
    if h != Next(n) || VotesAt(n, h) == map[] {
    } else if exists x :: Wins(n, h, x) {
      var x :| Wins(n, h, x) && Finalizes(cfg, n, h, x, roster, n');
      FinalizeKnown(cfg, n, h, x, roster, n', from, known);
    } else if exists x :: Leads(cfg, n, h, x) {
      var x :| Leads(cfg, n, h, x) && Follows(cfg, n, h, x, roster, n');
      FollowKnown(cfg, n, h, x, roster, n', from, known);
    }
  }

  lemma FollowKnown(cfg: Config, n: Node, h: nat, x: Hash, roster: Roster, n': Node, from: nat, known: Known)
    requires AllKnown(n, from, known) && Follows(cfg, n, h, x, roster, n')
    ensures AllKnown(n', from, known) && n.chain <= n'.chain
  {
    if WouldMove(cfg, n, h, x) {
      var m := MoveVote(cfg, n, h, x);
      if HasQuorum(m.roster.validators, Voters(m, h, x)) { FinalizeKnown(cfg, m, h, x, roster, n', from, known); }
    }
  }

  lemma HoldKnown(cfg: Config, n: Node, header: Header, ops: Ops, from: nat, known: Known)
    requires AllKnown(n, from, known) && (header, ops) in known
    ensures AllKnown(Hold(cfg, n, header, ops), from, known)
  {
  }

  lemma ProposeKnown(cfg: Config, m: Node, ops: Ops, from: nat, known: Known)
    requires AllKnown(m, from, known) && (Proposal(cfg, m, ops), ops) in known
    ensures AllKnown(Propose(cfg, m, ops), from, known)
  {
  }

  lemma RestoreKnown(cfg: Config, n: Node, m: Node, from: nat, known: Known)
    requires AllKnown(n, from, known) && Restores(cfg, n, m)
    ensures AllKnown(m, from, known) && m.chain == n.chain
  {
  }

  /** What a proposal on `m` says of its place and of its execution. */
  predicate Describes(cfg: Config, m: Node, ops: Ops, header: Header) {
    var h := Next(m);
    && header.proposer == cfg.self && header.height == h && header.epoch == h / 100 && header.opsRoot == cfg.opsRoot(ops)
    && header.stateRoot == ExecutedRoot(cfg, m.store, ops, h) && header.receiptsRoot == cfg.receiptsRoot(m.store, ops, h)
    && (m.chain != [] ==>
          var tip := m.chain[|m.chain| - 1].header;
          && header.parentHash == cfg.hash(tip)
          && header.timestamp == Min(tip.timestamp + cfg.blockTime, MAX_U64))
  }

  lemma ProposalDescribes(cfg: Config, m: Node, ops: Ops)
    ensures Describes(cfg, m, ops, Proposal(cfg, m, ops))
  {
    EagerCommitState(m.store, Next(m), cfg.stage(m.store, ops, Next(m)));
  }

  lemma DescribedMade(cfg: Config, n: Node, m: Node, e: Event, header: Header)
    requires e.Produce? && Restores(cfg, n, m) && m.chain == n.chain && Describes(cfg, m, e.ops, header)
    ensures Made(cfg, n, e, header, e.ops)
  {
  }

  lemma ProposalMade(cfg: Config, n: Node, m: Node, e: Event, header: Header)
    requires e.Produce? && Restores(cfg, n, m) && m.chain == n.chain && header == Proposal(cfg, m, e.ops)
    ensures Made(cfg, n, e, header, e.ops)
  {
    assert Describes(cfg, m, e.ops, header) by { ProposalDescribes(cfg, m, e.ops); }
    DescribedMade(cfg, n, m, e, header);
  }

  lemma AcceptReceived(cfg: Config, n: Node, e: Event, n': Node)
    requires e.Accept? && Step(cfg, n, e, n')
    ensures || n' == n
            || (Received(cfg, n, e, e.header, e.ops)
                && Reevaluates(cfg, Hold(cfg, n, e.header, e.ops), e.header.height, e.roster, n'))
  {
  }

  /** A step adds to what is known only what its event makes or delivers. */
  lemma StepKnown(cfg: Config, n: Node, e: Event, n': Node, from: nat, known: Known)
    requires Step(cfg, n, e, n') && AllKnown(n, from, known)
    requires forall header, ops :: Arises(cfg, n, e, header, ops) ==> (header, ops) in known
    ensures AllKnown(n', from, known) && n.chain <= n'.chain
  {
    match e
    case Produce(ops, roster) =>
      var m :| Restores(cfg, n, m) && Reevaluates(cfg, Propose(cfg, m, ops), Next(m), roster, n');
      RestoreKnown(cfg, n, m, from, known);
      ProposalMade(cfg, n, m, e, Proposal(cfg, m, ops));
      assert Arises(cfg, n, e, Proposal(cfg, m, ops), ops);
      ProposeKnown(cfg, m, ops, from, known);
      ReevaluateKnown(cfg, Propose(cfg, m, ops), Next(m), roster, n', from, known);
    case Accept(header, _, ops, _, _, roster) =>
      AcceptReceived(cfg, n, e, n');
      if n' != n {
        assert Arises(cfg, n, e, header, ops);
        HoldKnown(cfg, n, header, ops, from, known);
        ReevaluateKnown(cfg, Hold(cfg, n, header, ops), header.height, roster, n', from, known);
      }
    case Attest(voter, h, x, roster) =>
      if VoteAdmitted(n, voter, h) {
        ReevaluateKnown(cfg, RecordVote(n, voter, h, x), h, roster, n', from, known);
      }
    case Jailing(_) =>
  }

  // ---------- Whole runs ----------

  /** Held when the run began. */
  ghost predicate HeldBefore(n: Node, header: Header, ops: Ops) {
    exists h, x :: h in n.candidates && x in n.candidates[h]
                   && n.candidates[h][x].header == header && n.candidates[h][x].ops == ops
  }

  /** One of the first `i` events made or delivered this block. */
  ghost predicate Origin(cfg: Config, states: seq<Node>, events: seq<Event>, i: nat, header: Header, ops: Ops)
    requires Run(cfg, states, events) && i <= |events|
  {
    exists k :: 0 <= k < i && Arises(cfg, states[k], events[k], header, ops)
  }

  ghost function KnownBy(cfg: Config, states: seq<Node>, events: seq<Event>, i: nat): Known
    requires Run(cfg, states, events) && i <= |events|
  {
    iset b: (Header, Ops) | HeldBefore(states[0], b.0, b.1) || Origin(cfg, states, events, i, b.0, b.1)
  }

  lemma {:induction false} RunKnown(cfg: Config, states: seq<Node>, events: seq<Event>, i: nat)
    requires Run(cfg, states, events) && i < |states|
    ensures AllKnown(states[i], |states[0].chain|, KnownBy(cfg, states, events, i))
    ensures i > 0 ==> states[i - 1].chain <= states[i].chain
  {
    if i > 0 {
      var from, known := |states[0].chain|, KnownBy(cfg, states, events, i);
      RunKnown(cfg, states, events, i - 1);
      KnownGrows(cfg, states, events, i - 1);
      KnownWider(states[i - 1], from, KnownBy(cfg, states, events, i - 1), known);
      StepKnown(cfg, states[i - 1], events[i - 1], states[i], from, known);
    }
  }

  lemma KnownWider(n: Node, from: nat, a: Known, b: Known)
    requires AllKnown(n, from, a) && a <= b
    ensures AllKnown(n, from, b)
  {
  }

  lemma KnownGrows(cfg: Config, states: seq<Node>, events: seq<Event>, i: nat)
    requires Run(cfg, states, events) && i < |events|
    ensures KnownBy(cfg, states, events, i) <= KnownBy(cfg, states, events, i + 1)
    ensures forall header, ops :: Arises(cfg, states[i], events[i], header, ops) ==>
              (header, ops) in KnownBy(cfg, states, events, i + 1)
  {
  }

  /** In every state of every run, each candidate was held at the start, produced by this
      node, or delivered with a valid signature of an active proposer. */
  lemma CandidateOrigin(cfg: Config, states: seq<Node>, events: seq<Event>, i: nat, h: nat, x: Hash)
    requires Run(cfg, states, events) && i < |states| && h in states[i].candidates && x in states[i].candidates[h]
    ensures var pb := states[i].candidates[h][x];
      HeldBefore(states[0], pb.header, pb.ops) || Origin(cfg, states, events, i, pb.header, pb.ops)
  {
    RunKnown(cfg, states, events, i);
    var pb := states[i].candidates[h][x];
    assert (pb.header, pb.ops) in KnownBy(cfg, states, events, i);
  }

  /** So was each block finalized since, with exactly the operations it carries. */
  lemma BlockOrigin(cfg: Config, states: seq<Node>, events: seq<Event>, i: nat, j: nat)
    requires Run(cfg, states, events) && i < |states| && |states[0].chain| <= j < |states[i].chain|
    ensures var b := states[i].chain[j];
      HeldBefore(states[0], b.header, b.ops) || Origin(cfg, states, events, i, b.header, b.ops)
  {
    RunKnown(cfg, states, events, i);
    var b := states[i].chain[j];
    assert (b.header, b.ops) in KnownBy(cfg, states, events, i);
  }

  lemma {:induction false} ChainsGrow(cfg: Config, states: seq<Node>, events: seq<Event>, k: nat, i: nat)
    requires Run(cfg, states, events) && k <= i < |states|
    ensures states[k].chain <= states[i].chain
  {
    if k < i {
      ChainsGrow(cfg, states, events, k, i - 1);
      RunKnown(cfg, states, events, i);
    }
  }

  /** The epoch is the hundreds of the height, and the block is later than its parent; an
      own block may be at the 64-bit end of the clock. */
  predicate InTime(cfg: Config, parent: Header, b: Header) {
    && b.epoch == b.height / 100
    && (b.timestamp > parent.timestamp || (b.proposer == cfg.self && b.timestamp == MAX_U64))
  }

  lemma ArisesInTime(cfg: Config, n: Node, e: Event, header: Header, ops: Ops)
    requires Arises(cfg, n, e, header, ops) && cfg.blockTime > 0
    ensures header.height == Next(n) && (n.chain != [] ==> InTime(cfg, n.chain[|n.chain| - 1].header, header))
  {
  }

  /** Along the chain time rises strictly with every block that arrived, and with every own
      block until the clock is at its 64-bit end; epochs are hundreds of heights. */
  lemma TimesRise(cfg: Config, states: seq<Node>, events: seq<Event>, hist: seq<StateMap>, i: nat, j: nat)
    requires RootInjective(cfg) && SafeRun(cfg, states, events) && Inv(cfg, states[0], hist) && cfg.blockTime > 0
    requires i < |states| && |states[0].chain| <= j < |states[i].chain|
    requires !HeldBefore(states[0], states[i].chain[j].header, states[i].chain[j].ops)
    ensures j > 0 && InTime(cfg, states[i].chain[j - 1].header, states[i].chain[j].header)
  {
    var k := PickOrigin(cfg, states, events, i, j);
    TipBelow(cfg, states, events, hist, k, i, j);
  }

  lemma PickOrigin(cfg: Config, states: seq<Node>, events: seq<Event>, i: nat, j: nat) returns (k: nat)
    requires Run(cfg, states, events) && i < |states| && |states[0].chain| <= j < |states[i].chain| && cfg.blockTime > 0
    requires !HeldBefore(states[0], states[i].chain[j].header, states[i].chain[j].ops)
    ensures k < i && states[i].chain[j].header.height == Next(states[k])
    ensures var c := states[k].chain; c != [] ==> InTime(cfg, c[|c| - 1].header, states[i].chain[j].header)
  {
    BlockOrigin(cfg, states, events, i, j);
    var b := states[i].chain[j];
    k :| 0 <= k < i && Arises(cfg, states[k], events[k], b.header, b.ops);
    ArisesInTime(cfg, states[k], events[k], b.header, b.ops);
  }

  /** The block was made or delivered when its parent was the tip. */
  lemma TipBelow(cfg: Config, states: seq<Node>, events: seq<Event>, hist: seq<StateMap>, k: nat, i: nat, j: nat)
    requires RootInjective(cfg) && SafeRun(cfg, states, events) && Inv(cfg, states[0], hist)
    requires k < i < |states| && 0 < j < |states[i].chain| && states[i].chain[j].header.height == Next(states[k])
    ensures |states[k].chain| == j && states[k].chain[j - 1] == states[i].chain[j - 1]
  {
    RunLinked(cfg, states, events, hist, i);
    RunLinked(cfg, states, events, hist, k);
    ChainsGrow(cfg, states, events, k, i);
    var t := |states[k].chain| - 1;
    assert states[k].chain[t] == states[i].chain[t];
    HeightsCount(cfg, states[i].chain, t, j);
  }
}
