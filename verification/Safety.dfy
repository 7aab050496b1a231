/** Accountable safety of a network of nodes: every finalized block rests on ballots
    that were cast, so two blocks at one height convict more than a third of the stake. */
module Safety {
  import opened Types
  import opened Validators
  import opened Engine
  import opened EngineSteps

  // ---------- What steps leave alone ----------

  type Votes = map<nat, map<Id, Hash>>

  /** Every vote of `a` is in `b`. */
  ghost predicate SubVotes(a: Votes, b: Votes) {
    forall h, v :: h in a && v in a[h] ==> h in b && v in b[h] && b[h][v] == a[h][v]
  }

  lemma ReadyFrame(cfg: Config, n: Node, pb: Pending, m: Node)
    requires ReadyFor(cfg, n, pb, m)
    ensures m == n.(store := m.store, candidates := m.candidates, needsResync := m.needsResync)
    ensures m.candidates == n.candidates || m.candidates == DropExecuted(n)
  {
  }

  lemma ConcludeFrame(cfg: Config, m: Node, h: nat, pb: Pending, attesters: set<Id>, roster: Roster)
    ensures var r := Forget(Conclude(cfg, m, h, pb, attesters, roster), h);
      r.revotes == m.revotes && SubVotes(r.votes, m.votes)
  {
  }

  lemma FinalizeFrame(cfg: Config, n: Node, h: nat, x: Hash, roster: Roster, n': Node)
    requires Finalizes(cfg, n, h, x, roster, n')
    ensures n'.revotes == n.revotes && SubVotes(n'.votes, n.votes)
  {
    if x in CandidatesAt(n, h) {
      var pb, taken := CandidatesAt(n, h)[x], TakeCandidate(n, h, x);
      var m :| ReadyFor(cfg, taken, pb, m) && n' == Forget(Conclude(cfg, m, h, pb, Voters(n, h, x), roster), h);
      ReadyFrame(cfg, taken, pb, m);
      ConcludeFrame(cfg, m, h, pb, Voters(n, h, x), roster);
    }
  }

  /** A vote in the state after a step: recorded before it, or the node's own and
      queued for broadcast. */
  ghost predicate Accounts(self: Id, votes: Votes, revotes: seq<(nat, Hash)>, v: Id, h: nat, x: Hash) {
    || (h in votes && v in votes[h] && votes[h][v] == x)
    || (v == self && (h, x) in revotes)
  }

  ghost predicate VotesAccounted(self: Id, votes: Votes, revotes: seq<(nat, Hash)>, votes': Votes) {
    forall h, v :: h in votes' && v in votes'[h] ==> Accounts(self, votes, revotes, v, h, votes'[h][v])
  }

  lemma MoveAccounted(cfg: Config, n: Node, h: nat, x: Hash, votes': Votes)
    requires SubVotes(votes', MoveVote(cfg, n, h, x).votes)
    ensures VotesAccounted(cfg.self, n.votes, MoveVote(cfg, n, h, x).revotes, votes')
  {
  }

  lemma FollowFrame(cfg: Config, n: Node, h: nat, x: Hash, roster: Roster, n': Node)
    requires Follows(cfg, n, h, x, roster, n')
    ensures n.revotes <= n'.revotes && VotesAccounted(cfg.self, n.votes, n'.revotes, n'.votes)
  {
    if WouldMove(cfg, n, h, x) {
      var m := MoveVote(cfg, n, h, x);
      if HasQuorum(m.roster.validators, Voters(m, h, x)) { FinalizeFrame(cfg, m, h, x, roster, n'); }
      MoveAccounted(cfg, n, h, x, n'.votes);
    }
  }

  /** Re-evaluation records no vote but the node's own, which it queues for broadcast. */
  lemma ReevaluateFrame(cfg: Config, n: Node, h: nat, roster: Roster, n': Node)
    requires Reevaluates(cfg, n, h, roster, n')
    ensures n.revotes <= n'.revotes && VotesAccounted(cfg.self, n.votes, n'.revotes, n'.votes)
  {
    if h != Next(n) || VotesAt(n, h) == map[] {
    } else if exists x :: Wins(n, h, x) {
      var x :| Wins(n, h, x) && Finalizes(cfg, n, h, x, roster, n');
      FinalizeFrame(cfg, n, h, x, roster, n');
    } else if exists x :: Leads(cfg, n, h, x) {
      var x :| Leads(cfg, n, h, x) && Follows(cfg, n, h, x, roster, n');
      FollowFrame(cfg, n, h, x, roster, n');
    }
  }

  // ---------- What one node step can finalize ----------

  /** Every candidate is filed under its own height and hash. */
  ghost predicate Filed(cfg: Config, candidates: map<nat, map<Hash, Pending>>) {
    forall h, x :: h in candidates && x in candidates[h] ==>
      candidates[h][x].header.height == h && cfg.hash(candidates[h][x].header) == x
  }

  /** The chain grew by `b` at the next height, on a quorum of the stakes in force. */
  ghost predicate GrewBy(n: Node, b: FinalizedBlock, n': Node) {
    && n'.chain == n.chain + [b]
    && b.header.height == Next(n)
    && HasQuorum(n.roster.validators, b.attesters)
  }

  ghost predicate Grows(n: Node, n': Node) {
    || n'.chain == n.chain
    || (n'.chain != [] && GrewBy(n, n'.chain[|n'.chain| - 1], n'))
  }

  /** Everyone listed as attester of a new block has an accounted vote for it. */
  ghost predicate AttestersVoted(cfg: Config, n: Node, n': Node) {
    n'.chain != n.chain && n'.chain != [] ==>
      var b := n'.chain[|n'.chain| - 1];
      forall v :: v in b.attesters ==> Accounts(cfg.self, n.votes, n'.revotes, v, Next(n), cfg.hash(b.header))
  }

  /** The block a finalization appends, if it appends one. */
  ghost predicate Appended(n: Node, pb: Pending, attesters: set<Id>, n': Node) {
    || n'.chain == n.chain
    || exists root :: n'.chain == n.chain + [FinalizedBlock(pb.header, root, attesters, pb.ops)]
  }

  lemma ConcludeAppends(cfg: Config, m: Node, h: nat, pb: Pending, attesters: set<Id>, roster: Roster)
    ensures Appended(m, pb, attesters, Forget(Conclude(cfg, m, h, pb, attesters, roster), h))
    ensures Conclude(cfg, m, h, pb, attesters, roster).candidates == m.candidates
  {
    var r := Conclude(cfg, m, h, pb, attesters, roster);
    match pb.execution
    case Some(e) =>
      assert r.chain == m.chain + [FinalizedBlock(pb.header, e.root, attesters, pb.ops)];
    case None =>
      if ExecutedRoot(cfg, m.store, pb.ops, h) == pb.header.stateRoot {
        assert r.chain == m.chain + [FinalizedBlock(pb.header, pb.header.stateRoot, attesters, pb.ops)];
      }
  }

  lemma FiledKept(cfg: Config, n: Node, h: nat, x: Hash, m: Node)
    requires Filed(cfg, n.candidates)
    requires var taken := TakeCandidate(n, h, x); m.candidates == taken.candidates || m.candidates == DropExecuted(taken)
    ensures Filed(cfg, Above(m.candidates, h))
  {
  }

  lemma FinalizeAppends(cfg: Config, n: Node, h: nat, x: Hash, roster: Roster, n': Node)
    requires Filed(cfg, n.candidates) && x in CandidatesAt(n, h) && Finalizes(cfg, n, h, x, roster, n')
    ensures Filed(cfg, n'.candidates) && Appended(n, CandidatesAt(n, h)[x], Voters(n, h, x), n')
  {
    var pb, taken, voters := CandidatesAt(n, h)[x], TakeCandidate(n, h, x), Voters(n, h, x);
    var m :| ReadyFor(cfg, taken, pb, m) && n' == Forget(Conclude(cfg, m, h, pb, voters, roster), h);
    assert m.chain == n.chain && Filed(cfg, Above(m.candidates, h)) by {
      ReadyFrame(cfg, taken, pb, m);
      FiledKept(cfg, n, h, x, m);
    }
    ConcludeAppends(cfg, m, h, pb, voters, roster);
  }

  lemma AppendedGrows(cfg: Config, n: Node, pb: Pending, x: Hash, n': Node)
    requires Appended(n, pb, Voters(n, Next(n), x), n') && HasQuorum(n.roster.validators, Voters(n, Next(n), x))
    requires pb.header.height == Next(n) && cfg.hash(pb.header) == x
    ensures Grows(n, n') && AttestersVoted(cfg, n, n')
  {
  }

  /** Finalizing hash `x` appends nothing but the block with that hash and its voters. */
  lemma FinalizeGrows(cfg: Config, n: Node, x: Hash, roster: Roster, n': Node)
    requires Filed(cfg, n.candidates) && HasQuorum(n.roster.validators, Voters(n, Next(n), x))
    requires Finalizes(cfg, n, Next(n), x, roster, n')
    ensures Filed(cfg, n'.candidates) && Grows(n, n') && AttestersVoted(cfg, n, n')
  {
    if x in CandidatesAt(n, Next(n)) {
      FinalizeAppends(cfg, n, Next(n), x, roster, n');
      AppendedGrows(cfg, n, CandidatesAt(n, Next(n))[x], x, n');
    }
  }

  lemma MovedGrows(cfg: Config, n: Node, m: Node, x: Hash, n': Node)
    requires m == MoveVote(cfg, n, Next(n), x)
    requires n'.revotes == m.revotes && Grows(m, n') && AttestersVoted(cfg, m, n')
    ensures Grows(n, n') && AttestersVoted(cfg, n, n')
  {
  }

  lemma FollowGrows(cfg: Config, n: Node, x: Hash, roster: Roster, n': Node)
    requires Filed(cfg, n.candidates) && Follows(cfg, n, Next(n), x, roster, n')
    ensures Filed(cfg, n'.candidates) && Grows(n, n') && AttestersVoted(cfg, n, n')
  {
    if WouldMove(cfg, n, Next(n), x) {
      var m := MoveVote(cfg, n, Next(n), x);
      assert Next(m) == Next(n);
      if HasQuorum(m.roster.validators, Voters(m, Next(n), x)) {
        assert Filed(cfg, n'.candidates) && Grows(m, n') && AttestersVoted(cfg, m, n') by {
          FinalizeGrows(cfg, m, x, roster, n');
        }
        assert n'.revotes == m.revotes by { FinalizeFrame(cfg, m, Next(n), x, roster, n'); }
        MovedGrows(cfg, n, m, x, n');
      }
    }
  }

  lemma ReevaluateGrows(cfg: Config, n: Node, h: nat, roster: Roster, n': Node)
    requires Filed(cfg, n.candidates) && Reevaluates(cfg, n, h, roster, n')
    ensures Filed(cfg, n'.candidates) && Grows(n, n') && AttestersVoted(cfg, n, n')
  {
    if h != Next(n) || VotesAt(n, h) == map[] {
    } else if exists x :: Wins(n, h, x) {
      var x :| Wins(n, h, x) && Finalizes(cfg, n, h, x, roster, n');
      FinalizeGrows(cfg, n, x, roster, n');
    } else if exists x :: Leads(cfg, n, h, x) {
      var x :| Leads(cfg, n, h, x) && Follows(cfg, n, h, x, roster, n');
      FollowGrows(cfg, n, x, roster, n');
    }
  }

  // ---------- The network ----------

  datatype Ballot = Ballot(voter: Id, height: nat, hash: Hash)

  /** A finalization, with the validator set it was counted against. */
  datatype Certificate = Certificate(
    node: Id, height: nat, hash: Hash, validators: seq<ValidatorInfo>, attesters: set<Id>)

  /** All nodes, every ballot ever signed, and every finalization so far. */
  datatype Network = Network(nodes: map<Id, Node>, cast: set<Ballot>, finals: set<Certificate>)

  /** `Cast` lets any validator, honest or not, sign any ballot. */
  datatype Move = Acts(id: Id, event: Event) | Cast(ballot: Ballot)

  function As(cfg: Config, id: Id): Config { cfg.(self := id) }

  function OwnBallots(id: Id, n: Node): set<Ballot> {
    set p | p in n.revotes :: Ballot(id, p.0, p.1)
  }

  function NewFinals(cfg: Config, id: Id, n: Node, n': Node): set<Certificate> {
    if |n'.chain| <= |n.chain| then {}
    else
      var b := n'.chain[|n'.chain| - 1];
      {Certificate(id, b.header.height, cfg.hash(b.header), n.roster.validators, b.attesters)}
  }

  /** A node counts an attestation only if its signature verifies, so its ballot was cast. */
  ghost predicate Moves(cfg: Config, w: Network, move: Move, w': Network) {
    match move
    case Cast(ballot) => w' == w.(cast := w.cast + {ballot})
    case Acts(id, e) =>
      && id in w.nodes && id in w'.nodes
      && (e.Attest? ==> Ballot(e.voter, e.height, e.hash) in w.cast)
      && Step(As(cfg, id), w.nodes[id], e, w'.nodes[id])
      && w' == Network(w.nodes[id := w'.nodes[id]],
                       w.cast + OwnBallots(id, w'.nodes[id]),
                       w.finals + NewFinals(cfg, id, w.nodes[id], w'.nodes[id]))
  }

  /** Everything a node has recorded was cast. */
  ghost predicate Sincere(cfg: Config, cast: set<Ballot>, id: Id, n: Node) {
    && Filed(cfg, n.candidates)
    && (forall h, v :: h in n.votes && v in n.votes[h] ==> Ballot(v, h, n.votes[h][v]) in cast)
    && (forall p :: p in n.revotes ==> Ballot(id, p.0, p.1) in cast)
  }

  /** A finalization rests on a quorum of cast ballots. */
  ghost predicate Backed(cast: set<Ballot>, c: Certificate) {
    && HasQuorum(c.validators, c.attesters)
    && forall v :: v in c.attesters ==> Ballot(v, c.height, c.hash) in cast
  }

  ghost predicate NetworkInv(cfg: Config, w: Network) {
    && (forall id :: id in w.nodes ==> Sincere(cfg, w.cast, id, w.nodes[id]))
    && (forall c :: c in w.finals ==> Backed(w.cast, c))
  }

  /** What a node step does to its own votes and chain, given that its inputs were cast. */
  lemma StepSincere(cfg: Config, cast: set<Ballot>, id: Id, n: Node, e: Event, n': Node)
    requires Sincere(cfg, cast, id, n) && Step(As(cfg, id), n, e, n')
    requires e.Attest? ==> Ballot(e.voter, e.height, e.hash) in cast
    ensures Sincere(cfg, cast + OwnBallots(id, n'), id, n') && Grows(n, n')
    ensures forall c :: c in NewFinals(cfg, id, n, n') ==> Backed(cast + OwnBallots(id, n'), c)
  {
    match e {
      case Produce(_, _) => ProduceSincere(cfg, cast, id, n, e, n');
      case Accept(header, signature, ops, now, permitted, roster) =>
        if Acceptable(As(cfg, id), n, header, signature, now, permitted) {
          HoldSincere(cfg, cast, id, n, header, ops);
          ReevaluateSincere(cfg, cast, cast, id, n, Hold(As(cfg, id), n, header, ops), header.height, roster, n');
        }
      case Attest(voter, h, x, roster) =>
        if VoteAdmitted(n, voter, h) {
          RecordSincere(cfg, cast, id, n, voter, h, x);
          ReevaluateSincere(cfg, cast, cast, id, n, RecordVote(n, voter, h, x), h, roster, n');
        }
      case Jailing(_) =>
    }
  }

  lemma HoldSincere(cfg: Config, cast: set<Ballot>, id: Id, n: Node, header: Header, ops: Ops)
    requires Sincere(cfg, cast, id, n)
    ensures Sincere(cfg, cast, id, Hold(As(cfg, id), n, header, ops))
  {
  }

  lemma RecordSincere(cfg: Config, cast: set<Ballot>, id: Id, n: Node, voter: Id, h: nat, x: Hash)
    requires Sincere(cfg, cast, id, n) && Ballot(voter, h, x) in cast
    ensures Sincere(cfg, cast, id, RecordVote(n, voter, h, x))
  {
  }

  lemma ProduceSincere(cfg: Config, cast: set<Ballot>, id: Id, n: Node, e: Event, n': Node)
    requires Sincere(cfg, cast, id, n) && e.Produce? && Step(As(cfg, id), n, e, n')
    ensures Sincere(cfg, cast + OwnBallots(id, n'), id, n') && Grows(n, n')
    ensures forall c :: c in NewFinals(cfg, id, n, n') ==> Backed(cast + OwnBallots(id, n'), c)
  {
    var me := As(cfg, id);
    var m :| Restores(me, n, m) && Reevaluates(me, Propose(me, m, e.ops), Next(m), e.roster, n');
    RestoreSincere(cfg, cast, id, n, m);
    ProposeSincere(cfg, cast, id, m, e.ops);
    var p := Propose(me, m, e.ops);
    ReevaluateSincere(cfg, cast + OwnBallots(id, p), cast, id, n, p, Next(m), e.roster, n');
  }

  lemma RestoreSincere(cfg: Config, cast: set<Ballot>, id: Id, n: Node, m: Node)
    requires Sincere(cfg, cast, id, n) && Restores(As(cfg, id), n, m)
    ensures Sincere(cfg, cast, id, m) && m.chain == n.chain && m.roster == n.roster && m.revotes == n.revotes
  {
  }

  lemma ProposeSincere(cfg: Config, cast: set<Ballot>, id: Id, m: Node, ops: Ops)
    requires Sincere(cfg, cast, id, m)
    ensures var p := Propose(As(cfg, id), m, ops);
      Sincere(cfg, cast + OwnBallots(id, p), id, p)
  {
    var p := Propose(As(cfg, id), m, ops);
    var x := cfg.hash(Proposal(As(cfg, id), m, ops));
    assert (Next(m), x) in p.revotes;
    ProposeFiled(As(cfg, id), m, ops);
    forall h, v | h in p.votes && v in p.votes[h]
      ensures Ballot(v, h, p.votes[h][v]) in cast + OwnBallots(id, p)
    {
      assert (h == Next(m) && v == id) || (h in m.votes && v in m.votes[h] && p.votes[h][v] == m.votes[h][v]);
    }
  }

  lemma ProposeFiled(cfg: Config, m: Node, ops: Ops)
    requires Filed(cfg, m.candidates)
    ensures Filed(cfg, Propose(cfg, m, ops).candidates)
  {
  }

  /** From a sincere intermediate node, re-evaluation ends sincere and any block it
      finalizes is backed. */
  lemma ReevaluateSincere(cfg: Config, held: set<Ballot>, cast: set<Ballot>, id: Id, n: Node, p: Node,
                          h: nat, roster: Roster, n': Node)
    requires Sincere(cfg, held, id, p) && Reevaluates(As(cfg, id), p, h, roster, n')
    requires held <= cast + OwnBallots(id, p)
    requires p.chain == n.chain && p.roster == n.roster
    ensures Sincere(cfg, cast + OwnBallots(id, n'), id, n') && Grows(n, n')
    ensures forall c :: c in NewFinals(cfg, id, n, n') ==> Backed(cast + OwnBallots(id, n'), c)
  {
    ReevaluateFrame(As(cfg, id), p, h, roster, n');
    ReevaluateGrows(As(cfg, id), p, h, roster, n');
    var all := cast + OwnBallots(id, n');
    BallotsGrow(id, p, n');
    forall v, g, x | Accounts(id, p.votes, n'.revotes, v, g, x) ensures Ballot(v, g, x) in all {
      AccountedCast(cfg, held, all, id, p, n', v, g, x);
    }
    SincereAfter(cfg, all, id, p, n');
    BackedAfter(cfg, all, id, n, p, n');
  }

  lemma AccountedCast(cfg: Config, held: set<Ballot>, all: set<Ballot>, id: Id, p: Node, n': Node, v: Id, g: nat, x: Hash)
    requires Sincere(cfg, held, id, p) && held <= all && OwnBallots(id, n') <= all
    requires Accounts(id, p.votes, n'.revotes, v, g, x)
    ensures Ballot(v, g, x) in all
  {
  }

  lemma SincereAfter(cfg: Config, all: set<Ballot>, id: Id, p: Node, n': Node)
    requires Filed(cfg, n'.candidates) && OwnBallots(id, n') <= all && VotesAccounted(id, p.votes, n'.revotes, n'.votes)
    requires forall v, g, x :: Accounts(id, p.votes, n'.revotes, v, g, x) ==> Ballot(v, g, x) in all
    ensures Sincere(cfg, all, id, n')
  {
  }

  lemma BackedAfter(cfg: Config, all: set<Ballot>, id: Id, n: Node, p: Node, n': Node)
    requires p.chain == n.chain && p.roster == n.roster && Grows(p, n') && AttestersVoted(As(cfg, id), p, n')
    requires forall v, g, x :: Accounts(id, p.votes, n'.revotes, v, g, x) ==> Ballot(v, g, x) in all
    ensures Grows(n, n') && forall c :: c in NewFinals(cfg, id, n, n') ==> Backed(all, c)
  {
  }

  lemma BallotsGrow(id: Id, p: Node, n: Node)
    requires p.revotes <= n.revotes
    ensures OwnBallots(id, p) <= OwnBallots(id, n)
  {
  }

  // ---------- Runs of the network ----------

  lemma MoveKeeps(cfg: Config, w: Network, move: Move, w': Network)
    requires NetworkInv(cfg, w) && Moves(cfg, w, move, w')
    ensures NetworkInv(cfg, w')
  {
    if move.Acts? {
      StepSincere(cfg, w.cast, move.id, w.nodes[move.id], move.event, w'.nodes[move.id]);
    }
  }

  ghost predicate NetworkRun(cfg: Config, ws: seq<Network>, moves: seq<Move>) {
    && |ws| == |moves| + 1
    && forall i {:trigger moves[i]} :: 0 <= i < |moves| ==> Moves(cfg, ws[i], moves[i], ws[i + 1])
  }

  lemma {:induction false} RunKeeps(cfg: Config, ws: seq<Network>, moves: seq<Move>, i: nat)
    requires NetworkRun(cfg, ws, moves) && NetworkInv(cfg, ws[0]) && i < |ws|
    ensures NetworkInv(cfg, ws[i])
  {
    if i > 0 {
      RunKeeps(cfg, ws, moves, i - 1);
      MoveKeeps(cfg, ws[i - 1], moves[i - 1], ws[i]);
    }
  }

  /** Validators with cast ballots for both hashes. */
  function VotedBoth(cast: set<Ballot>, h: nat, x: Hash, y: Hash): set<Id> {
    set b | b in cast && b == Ballot(b.voter, h, x) && Ballot(b.voter, h, y) in cast :: b.voter
  }

  lemma BackedConflict(cast: set<Ballot>, c: Certificate, d: Certificate)
    requires Backed(cast, c) && Backed(cast, d) && c.height == d.height
    requires Committed(c.validators) == Committed(d.validators)
    ensures StakeOf(c.validators, VotedBoth(cast, c.height, c.hash, d.hash)) * 3 > TotalStake(c.validators)
  {
    QuorumsIntersect(c.validators, d.validators, c.attesters, d.attesters);
    var both := VotedBoth(cast, c.height, c.hash, d.hash);
    forall v | v in c.attesters * d.attesters ensures v in both {
      assert Ballot(v, c.height, c.hash) in cast;
    }
    StakeMonotone(c.validators, c.attesters * d.attesters, both);
  }

  /** Accountable safety: whenever two nodes, with the same committed stakes but
      whatever local jailings, finalize at one height, more than a third of the stake
      has cast ballots for both hashes. */
  lemma AccountableSafety(cfg: Config, ws: seq<Network>, moves: seq<Move>, i: nat, c: Certificate, d: Certificate)
    requires NetworkRun(cfg, ws, moves) && NetworkInv(cfg, ws[0]) && i < |ws|
    requires c in ws[i].finals && d in ws[i].finals && c.height == d.height
    requires Committed(c.validators) == Committed(d.validators)
    ensures StakeOf(c.validators, VotedBoth(ws[i].cast, c.height, c.hash, d.hash)) * 3 > TotalStake(c.validators)
  {
    RunKeeps(cfg, ws, moves, i);
    BackedConflict(ws[i].cast, c, d);
  }

  // ---------- Agreement ----------

  predicate VotedAgain(cast: set<Ballot>, b: Ballot) {
    exists d :: d in cast && d.voter == b.voter && d.height == b.height && d.hash != b.hash
  }

  /** Validators that cast ballots for two hashes at a height. */
  function DoubleVoters(cast: set<Ballot>, h: nat): set<Id> {
    set b | b in cast && b.height == h && VotedAgain(cast, b) :: b.voter
  }

  /** At each finalized height the nodes agree on the stakes, and double voters hold at
      most a third of them. */
  ghost predicate MostlyHonest(w: Network) {
    && (forall c, d :: c in w.finals && d in w.finals && c.height == d.height ==>
          Committed(c.validators) == Committed(d.validators))
    && (forall c :: c in w.finals ==>
          StakeOf(c.validators, DoubleVoters(w.cast, c.height)) * 3 <= TotalStake(c.validators))
  }

  /** Then at most one hash is ever finalized at a height. */
  lemma OneHashPerHeight(cfg: Config, ws: seq<Network>, moves: seq<Move>, i: nat, c: Certificate, d: Certificate)
    requires NetworkRun(cfg, ws, moves) && NetworkInv(cfg, ws[0]) && i < |ws| && MostlyHonest(ws[i])
    requires c in ws[i].finals && d in ws[i].finals && c.height == d.height
    ensures c.hash == d.hash
  {
    if c.hash != d.hash {
      AccountableSafety(cfg, ws, moves, i, c, d);
      var both := VotedBoth(ws[i].cast, c.height, c.hash, d.hash);
      forall v | v in both ensures v in DoubleVoters(ws[i].cast, c.height) {
        assert VotedAgain(ws[i].cast, Ballot(v, c.height, c.hash));
      }
      StakeMonotone(c.validators, both, DoubleVoters(ws[i].cast, c.height));
    }
  }

  ghost predicate IsFinal(cfg: Config, w: Network, id: Id, b: FinalizedBlock) {
    exists c :: c in w.finals && c.node == id && c.height == b.header.height && c.hash == cfg.hash(b.header)
  }

  /** Past the common base, a chain counts heights one by one and each block was finalized. */
  ghost predicate Traced(cfg: Config, base: seq<FinalizedBlock>, w: Network, id: Id)
    requires base != [] && id in w.nodes
  {
    var chain := w.nodes[id].chain;
    && base <= chain
    && forall k :: |base| <= k < |chain| ==>
         chain[k].header.height == base[|base| - 1].header.height + (k + 1 - |base|) && IsFinal(cfg, w, id, chain[k])
  }

  ghost predicate AllTraced(cfg: Config, base: seq<FinalizedBlock>, w: Network)
    requires base != []
  {
    forall id :: id in w.nodes ==> Traced(cfg, base, w, id)
  }

  lemma ActorTraced(cfg: Config, base: seq<FinalizedBlock>, w: Network, id: Id, w': Network)
    requires base != [] && id in w.nodes && id in w'.nodes && Traced(cfg, base, w, id)
    requires Grows(w.nodes[id], w'.nodes[id])
    requires w'.finals == w.finals + NewFinals(cfg, id, w.nodes[id], w'.nodes[id])
    ensures Traced(cfg, base, w', id)
  {
  }

  lemma MoveTraced(cfg: Config, base: seq<FinalizedBlock>, w: Network, move: Move, w': Network)
    requires base != [] && NetworkInv(cfg, w) && AllTraced(cfg, base, w) && Moves(cfg, w, move, w')
    ensures AllTraced(cfg, base, w')
  {
    forall id | id in w'.nodes ensures Traced(cfg, base, w', id) {
      if move.Acts? && move.id == id {
        StepSincere(cfg, w.cast, id, w.nodes[id], move.event, w'.nodes[id]);
        ActorTraced(cfg, base, w, id, w');
      } else {
        BystanderTraced(cfg, base, w, id, w');
      }
    }
  }

  lemma BystanderTraced(cfg: Config, base: seq<FinalizedBlock>, w: Network, id: Id, w': Network)
    requires base != [] && id in w.nodes && id in w'.nodes && Traced(cfg, base, w, id)
    requires w'.nodes[id] == w.nodes[id] && w.finals <= w'.finals
    ensures Traced(cfg, base, w', id)
  {
  }

  lemma {:induction false} RunTraced(cfg: Config, base: seq<FinalizedBlock>, ws: seq<Network>, moves: seq<Move>, i: nat)
    requires base != [] && NetworkRun(cfg, ws, moves) && NetworkInv(cfg, ws[0]) && AllTraced(cfg, base, ws[0]) && i < |ws|
    ensures AllTraced(cfg, base, ws[i])
  {
    if i > 0 {
      RunTraced(cfg, base, ws, moves, i - 1);
      RunKeeps(cfg, ws, moves, i - 1);
      MoveTraced(cfg, base, ws[i - 1], moves[i - 1], ws[i]);
    }
  }

  /** No fork: nodes that start from one chain hold the same header at every position
      both have reached, in every state of every run with at most a third of double
      voting stake. */
  lemma ChainsAgree(cfg: Config, base: seq<FinalizedBlock>, ws: seq<Network>, moves: seq<Move>, i: nat,
                    a: Id, b: Id, k: nat)
    requires HashInjective(cfg) && base != []
    requires NetworkRun(cfg, ws, moves) && NetworkInv(cfg, ws[0]) && AllTraced(cfg, base, ws[0])
    requires i < |ws| && MostlyHonest(ws[i]) && a in ws[i].nodes && b in ws[i].nodes
    requires k < |ws[i].nodes[a].chain| && k < |ws[i].nodes[b].chain|
    ensures ws[i].nodes[a].chain[k].header == ws[i].nodes[b].chain[k].header
  {
    RunTraced(cfg, base, ws, moves, i);
    var w := ws[i];
    var p, q := w.nodes[a].chain[k], w.nodes[b].chain[k];
    assert Traced(cfg, base, w, a) && Traced(cfg, base, w, b);
    if k >= |base| {
      var c :| c in w.finals && c.node == a && c.height == p.header.height && c.hash == cfg.hash(p.header);
      var d :| d in w.finals && d.node == b && d.height == q.header.height && d.hash == cfg.hash(q.header);
      OneHashPerHeight(cfg, ws, moves, i, c, d);
    }
  }
}
