/** Moving votes is enough to finalize two blocks at one height: a run in which every
    ballot comes from a node that follows the fork choice. */
module HonestFork {
  import opened Types
  import opened Storage
  import opened Validators
  import opened Engine
  import opened EngineSteps
  import opened Safety

  // ---------- Runs of honest moves ----------

  ghost predicate HonestRun(cfg: Config, ws: seq<Network>, moves: seq<Move>) {
    NetworkRun(cfg, ws, moves) && forall i :: 0 <= i < |moves| ==> moves[i].Acts?
  }

  ghost predicate Reaches(cfg: Config, w: Network, w': Network) {
    exists ws, moves :: HonestRun(cfg, ws, moves) && ws[0] == w && ws[|moves|] == w'
  }

  lemma ReachesItself(cfg: Config, w: Network)
    ensures Reaches(cfg, w, w)
  {
    var moves: seq<Move> := [];
    assert HonestRun(cfg, [w], moves) && [w][|moves|] == w;
  }

  lemma MovesAt(cfg: Config, ws: seq<Network>, moves: seq<Move>, i: nat, w: Network, move: Move, w': Network)
    requires NetworkRun(cfg, ws, moves) && i < |moves| && w == ws[i] && move == moves[i] && w' == ws[i + 1]
    ensures Moves(cfg, w, move, w')
  {
  }

  /** Two runs that meet are one run. */
  lemma RunsJoin(cfg: Config, us: seq<Network>, ms: seq<Move>, vs: seq<Network>, ns: seq<Move>)
    requires NetworkRun(cfg, us, ms) && NetworkRun(cfg, vs, ns) && us[|ms|] == vs[0]
    ensures NetworkRun(cfg, us + vs[1..], ms + ns)
  {
    var ws, moves := us + vs[1..], ms + ns;
    forall i {:trigger moves[i]} | 0 <= i < |moves| ensures Moves(cfg, ws[i], moves[i], ws[i + 1]) {
      if i < |ms| {
        MovesAt(cfg, us, ms, i, ws[i], moves[i], ws[i + 1]);
      } else {
        MovesAt(cfg, vs, ns, i - |ms|, ws[i], moves[i], ws[i + 1]);
      }
    }
  }

  lemma ReachesOn(cfg: Config, w: Network, v: Network, move: Move, v': Network)
    requires Reaches(cfg, w, v) && move.Acts? && NetworkRun(cfg, [v, v'], [move])
    ensures Reaches(cfg, w, v')
  {
    var ws, moves :| HonestRun(cfg, ws, moves) && ws[0] == w && ws[|moves|] == v;
    RunsJoin(cfg, ws, moves, [v, v'], [move]);
    var ws', moves' := ws + [v, v'][1..], moves + [move];
    assert HonestRun(cfg, ws', moves') && ws'[0] == w && ws'[|moves'|] == v';
  }

  /** A node takes a step; its new ballots and its new block become known. */
  lemma Act(cfg: Config, w: Network, v: Network, id: Id, e: Event, n': Node) returns (v': Network)
    requires Reaches(cfg, w, v) && id in v.nodes && Step(As(cfg, id), v.nodes[id], e, n')
    requires e.Attest? ==> Ballot(e.voter, e.height, e.hash) in v.cast
    ensures Reaches(cfg, w, v') && v'.nodes == v.nodes[id := n']
    ensures v'.cast == v.cast + OwnBallots(id, n') && v'.finals == v.finals + NewFinals(cfg, id, v.nodes[id], n')
  {
    v' := Network(v.nodes[id := n'], v.cast + OwnBallots(id, n'), v.finals + NewFinals(cfg, id, v.nodes[id], n'));
    assert NetworkRun(cfg, [v, v'], [Acts(id, e)]) by { assert Moves(cfg, v, Acts(id, e), v'); }
    ReachesOn(cfg, w, v, Acts(id, e), v');
  }

  // ---------- The scene ----------

  /** Four nodes on one chain. `p` proposes a block with hash `x`, `q` one with hash `y`. */
  datatype Scene = Scene(cfg: Config, start: Node, p: Id, q: Id, r: Id, s: Id, x: Hash, y: Hash,
                         opsX: Ops, opsY: Ops, sigX: Bytes, sigY: Bytes)
  {
    function Height(): nat { Next(start) }
    function X(): Header { Proposal(As(cfg, p), start, opsX) }
    function Y(): Header { Proposal(As(cfg, q), start, opsY) }

    predicate Distinct() { p != q && p != r && p != s && q != r && q != s && r != s && x != y }

    /** One unit of stake each, and `p` before `q` in the order. */
    predicate Seated() {
      && Distinct() && start.roster.validators == [Unit(p), Unit(q), Unit(r), Unit(s)]
      && var order := ProposerOrder(start.roster.validators, Height(), start.roster.seed, cfg.draw);
         Rank(order, p) < Rank(order, q)
    }

    /** Clocks and signatures are in order. */
    predicate Signed() {
      && start.chain != [] && start.chain[|start.chain| - 1].header.timestamp < MAX_U64 && cfg.blockTime > 0
      && |sigX| == 64 && cfg.verify(p, x, sigX) && |sigY| == 64 && cfg.verify(q, y, sigY)
      && forall b :: b in start.chain ==> b.header.height < Height()
    }

    predicate Set() {
      && Seated() && Signed() && OnTip(cfg, start) && cfg.hash(X()) == x && cfg.hash(Y()) == y
      && start.candidates == map[] && start.votes == map[] && start.revotes == [] && start.invalid == map[]
      && !start.resyncing
    }
  }

  function Unit(id: Id): ValidatorInfo { ValidatorInfo(id, 1, Active, 0) }

  predicate IsMember(sc: Scene, id: Id) { id == sc.p || id == sc.q || id == sc.r || id == sc.s }

  predicate Backs(votes: map<Id, Hash>, id: Id, z: Hash) { id in votes && votes[id] == z }

  function Bit(votes: map<Id, Hash>, id: Id, z: Hash): nat { if Backs(votes, id, z) then 1 else 0 }

  function Count(sc: Scene, votes: map<Id, Hash>, z: Hash): nat {
    Bit(votes, sc.p, z) + Bit(votes, sc.q, z) + Bit(votes, sc.r, z) + Bit(votes, sc.s, z)
  }

  predicate Undecided(sc: Scene, votes: map<Id, Hash>) { Count(sc, votes, sc.x) < 3 && Count(sc, votes, sc.y) < 3 }

  lemma Counted(sc: Scene, votes: map<Id, Hash>, z: Hash)
    requires sc.Seated()
    ensures var vs := sc.start.roster.validators;
      && StakeOf(vs, VotersFor(votes, z)) == Count(sc, votes, z)
      && (HasQuorum(vs, VotersFor(votes, z)) <==> Count(sc, votes, z) >= 3)
  {
    var vs, voters := sc.start.roster.validators, VotersFor(votes, z);
    FirstUnit(sc.p, [Unit(sc.q), Unit(sc.r), Unit(sc.s)], voters);
    FirstUnit(sc.q, [Unit(sc.r), Unit(sc.s)], voters);
    FirstUnit(sc.r, [Unit(sc.s)], voters);
    FirstUnit(sc.s, [], voters);
    assert vs == [Unit(sc.p)] + [Unit(sc.q), Unit(sc.r), Unit(sc.s)];
    assert [Unit(sc.q), Unit(sc.r), Unit(sc.s)] == [Unit(sc.q)] + [Unit(sc.r), Unit(sc.s)];
    assert [Unit(sc.r), Unit(sc.s)] == [Unit(sc.r)] + [Unit(sc.s)] && [Unit(sc.s)] == [Unit(sc.s)] + [];
  }

  lemma FirstUnit(id: Id, rest: seq<ValidatorInfo>, a: set<Id>)
    ensures StakeOf([Unit(id)] + rest, a) == (if id in a then 1 else 0) + StakeOf(rest, a)
    ensures TotalStake([Unit(id)] + rest) == 1 + TotalStake(rest)
  {
    assert ([Unit(id)] + rest)[1..] == rest;
  }

  lemma MemberActive(sc: Scene, id: Id)
    requires sc.Seated() && IsMember(sc, id)
    ensures IsActive(sc.start.roster.validators, id)
  {
    var vs := sc.start.roster.validators;
    assert vs[0] == Unit(sc.p) && vs[1] == Unit(sc.q) && vs[2] == Unit(sc.r) && vs[3] == Unit(sc.s);
  }

  // ---------- One node's view of the two blocks ----------

  /** A node still at the start, holding some of the two blocks, with these votes. */
  ghost predicate Views(sc: Scene, n: Node, votes: map<Id, Hash>) {
    && n.chain == sc.start.chain && n.roster == sc.start.roster && n.invalid == map[] && !n.resyncing
    && VotesAt(n, sc.Height()) == votes
    && OnlyTwo(sc, CandidatesAt(n, sc.Height()))
  }

  ghost predicate OnlyTwo(sc: Scene, held: map<Hash, Pending>) {
    forall z :: z in held ==>
      || (z == sc.x && held[z].header == sc.X() && held[z].ops == sc.opsX)
      || (z == sc.y && held[z].header == sc.Y() && held[z].ops == sc.opsY)
  }

  predicate Holds(sc: Scene, n: Node, z: Hash) { z in CandidatesAt(n, sc.Height()) }

  lemma NoWinner(sc: Scene, n: Node, votes: map<Id, Hash>)
    requires sc.Seated() && Views(sc, n, votes)
    requires Undecided(sc, votes)
    ensures forall z :: !Wins(n, sc.Height(), z)
  {
    forall z ensures !Wins(n, sc.Height(), z) { Counted(sc, votes, z); }
  }

  /** More votes lead; with equal votes `X` leads. */
  predicate Ahead(sc: Scene, votes: map<Id, Hash>, z: Hash) {
    || (z == sc.x && Count(sc, votes, z) >= Count(sc, votes, sc.y))
    || (z == sc.y && Count(sc, votes, z) > Count(sc, votes, sc.x))
  }

  lemma Leader(sc: Scene, id: Id, n: Node, votes: map<Id, Hash>, z: Hash)
    requires sc.Seated() && Views(sc, n, votes) && Holds(sc, n, z) && Count(sc, votes, z) > 0 && Ahead(sc, votes, z)
    ensures Leads(As(sc.cfg, id), n, sc.Height(), z)
  {
    var h := sc.Height();
    assert exists v :: v in votes && votes[v] == z;
    forall y | Viable(n, h, y) && y != z ensures Beats(As(sc.cfg, id), n, h, z, y) {
      Counted(sc, votes, z);
      Counted(sc, votes, y);
    }
  }

  lemma FollowsLeader(cfg: Config, n: Node, h: nat, z: Hash, roster: Roster, n': Node)
    requires h == Next(n) && Leads(cfg, n, h, z) && Follows(cfg, n, h, z, roster, n')
    requires forall y :: !Wins(n, h, y)
    ensures Reevaluates(cfg, n, h, roster, n')
  {
  }

  lemma WinnerFinalizes(cfg: Config, n: Node, h: nat, z: Hash, roster: Roster, n': Node)
    requires h == Next(n) && Wins(n, h, z) && Finalizes(cfg, n, h, z, roster, n')
    ensures Reevaluates(cfg, n, h, roster, n')
  {
  }

  /** A node that already votes for the leader does nothing. */
  lemma Stays(sc: Scene, id: Id, n: Node, votes: map<Id, Hash>, z: Hash)
    requires sc.Seated() && Views(sc, n, votes) && Holds(sc, n, z) && Ahead(sc, votes, z)
    requires Undecided(sc, votes)
    requires IsMember(sc, id) && Backs(votes, id, z)
    ensures Reevaluates(As(sc.cfg, id), n, sc.Height(), sc.start.roster, n)
  {
    NoWinner(sc, n, votes);
    Leader(sc, id, n, votes, z);
    FollowsLeader(As(sc.cfg, id), n, sc.Height(), z, sc.start.roster, n);
  }

  /** A node that does not vote for the leader moves its vote there. */
  lemma MovesThere(sc: Scene, id: Id, n: Node, votes: map<Id, Hash>, z: Hash, n': Node)
    requires sc.Seated() && Views(sc, n, votes) && Holds(sc, n, z) && Count(sc, votes, z) > 0 && Ahead(sc, votes, z)
    requires Undecided(sc, votes)
    requires IsMember(sc, id) && !Backs(votes, id, z)
    requires var m := MoveVote(As(sc.cfg, id), n, sc.Height(), z);
      if Count(sc, votes[id := z], z) < 3 then n' == m
      else Finalizes(As(sc.cfg, id), m, sc.Height(), z, sc.start.roster, n')
    ensures Reevaluates(As(sc.cfg, id), n, sc.Height(), sc.start.roster, n')
  {
    NoWinner(sc, n, votes);
    Leader(sc, id, n, votes, z);
    assert Follows(As(sc.cfg, id), n, sc.Height(), z, sc.start.roster, n') by {
      MemberActive(sc, id);
      Counted(sc, votes[id := z], z);
      assert VotesAt(MoveVote(As(sc.cfg, id), n, sc.Height(), z), sc.Height()) == votes[id := z];
    }
    FollowsLeader(As(sc.cfg, id), n, sc.Height(), z, sc.start.roster, n');
  }

  // ---------- Finalizing a peer's block ----------

  /** Nothing executed here: the store is as it was at the start. */
  ghost predicate Untouched(sc: Scene, n: Node) {
    n.store == sc.start.store && NoneExecuted(n)
  }

  ghost predicate NoneExecuted(n: Node) {
    forall h, x :: h in n.candidates && x in n.candidates[h] ==> n.candidates[h][x].execution.None?
  }

  lemma RestoresItself(cfg: Config, n: Node)
    requires OnTip(cfg, n) && NoneExecuted(n)
    ensures Restores(cfg, n, n)
  {
    assert ExecutedAt(n) == {};
    assert UndoOrder(n, []) && n == RestoreIn(cfg, n, []);
  }

  lemma RootReproduced(sc: Scene, id: Id, ops: Ops)
    requires sc.Set()
    ensures ExecutedRoot(sc.cfg, sc.start.store, ops, sc.Height()) == Proposal(As(sc.cfg, id), sc.start, ops).stateRoot
  {
    EagerCommitState(sc.start.store, sc.Height(), sc.cfg.stage(sc.start.store, ops, sc.Height()));
  }

  /** A peer's block whose root the store reproduces is appended. */
  lemma FinalizesPeer(cfg: Config, n: Node, h: nat, z: Hash, pb: Pending, roster: Roster) returns (n': Node)
    requires OnTip(cfg, n) && NoneExecuted(n) && z in CandidatesAt(n, h) && CandidatesAt(n, h)[z] == pb
    requires ExecutedRoot(cfg, n.store, pb.ops, h) == pb.header.stateRoot
    ensures Finalizes(cfg, n, h, z, roster, n')
    ensures n'.chain == n.chain + [FinalizedBlock(pb.header, pb.header.stateRoot, Voters(n, h, z), pb.ops)]
  {
    var taken := TakeCandidate(n, h, z);
    assert NoneExecuted(taken);
    RestoresItself(cfg, taken);
    n' := Forget(Conclude(cfg, taken, h, pb, Voters(n, h, z), roster), h);
    assert ReadyFor(cfg, taken, pb, taken);
  }

  /** The chain has grown by a block with this hash. */
  predicate EndsWith(sc: Scene, n': Node, z: Hash) {
    && |n'.chain| == |sc.start.chain| + 1
    && var b := n'.chain[|sc.start.chain|]; b.header.height == sc.Height() && sc.cfg.hash(b.header) == z
  }

  /** Then a block it holds can be finalized. */
  lemma FinalizesHeld(sc: Scene, id: Id, n: Node, votes: map<Id, Hash>, z: Hash) returns (n': Node)
    requires sc.Set() && Views(sc, n, votes) && Untouched(sc, n) && Holds(sc, n, z)
    ensures Finalizes(As(sc.cfg, id), n, sc.Height(), z, sc.start.roster, n')
    ensures EndsWith(sc, n', z)
  {
    RootReproduced(sc, sc.p, sc.opsX);
    RootReproduced(sc, sc.q, sc.opsY);
    n' := FinalizesPeer(As(sc.cfg, id), n, sc.Height(), z, CandidatesAt(n, sc.Height())[z], sc.start.roster);
  }

  // ---------- The steps ----------

  /** One of the two blocks: who proposes it, with which hash, operations and signature. */
  predicate IsBlock(sc: Scene, who: Id, z: Hash, ops: Ops, sig: Bytes) {
    || (who == sc.p && z == sc.x && ops == sc.opsX && sig == sc.sigX)
    || (who == sc.q && z == sc.y && ops == sc.opsY && sig == sc.sigY)
  }

  function HeaderOf(sc: Scene, who: Id, ops: Ops): Header { Proposal(As(sc.cfg, who), sc.start, ops) }

  lemma Alone(sc: Scene, who: Id, z: Hash)
    requires sc.Distinct() && ((who == sc.p && z == sc.x) || (who == sc.q && z == sc.y))
    ensures var votes := map[who := z];
      Ahead(sc, votes, z) && Undecided(sc, votes)
  {
    assert Count(sc, map[who := z], z) == 1;
  }

  lemma Proposes(sc: Scene, who: Id, z: Hash, ops: Ops, sig: Bytes)
    requires sc.Set() && IsBlock(sc, who, z, ops, sig)
    ensures var me := As(sc.cfg, who);
      var n' := Propose(me, sc.start, ops);
      && Step(me, sc.start, Produce(ops, sc.start.roster), n')
      && Views(sc, n', map[who := z]) && Holds(sc, n', z)
      && Ballot(who, sc.Height(), z) in OwnBallots(who, n')
  {
    var me, h := As(sc.cfg, who), sc.Height();
    var n' := Propose(me, sc.start, ops);
    assert (h, z) in n'.revotes;
    OwnView(sc, who, z, ops, sig);
    Alone(sc, who, z);
    Stays(sc, who, n', map[who := z], z);
    RestoresItself(me, sc.start);
    ProducesFrom(me, sc.start, ops, sc.start.roster, n');
  }

  lemma ProducesFrom(cfg: Config, n: Node, ops: Ops, roster: Roster, n': Node)
    requires Restores(cfg, n, n) && Reevaluates(cfg, Propose(cfg, n, ops), Next(n), roster, n')
    ensures Step(cfg, n, Produce(ops, roster), n')
  {
  }

  lemma OwnView(sc: Scene, who: Id, z: Hash, ops: Ops, sig: Bytes)
    requires sc.Set() && IsBlock(sc, who, z, ops, sig)
    ensures var n' := Propose(As(sc.cfg, who), sc.start, ops);
      Views(sc, n', map[who := z]) && Holds(sc, n', z)
  {
  }

  /** Both blocks pass every check. */
  lemma Passes(sc: Scene, id: Id, n: Node, votes: map<Id, Hash>, who: Id, z: Hash, ops: Ops, sig: Bytes)
    requires sc.Set() && Views(sc, n, votes) && IsBlock(sc, who, z, ops, sig)
    ensures var header := HeaderOf(sc, who, ops); Acceptable(As(sc.cfg, id), n, header, sig, header.timestamp, true)
  {
    MemberActive(sc, who);
    OrderListsActive(sc.start.roster.validators, sc.Height(), sc.start.roster.seed, sc.cfg.draw, who);
  }

  /** A node keeps what it has and adds the block. */
  lemma Adds(sc: Scene, id: Id, n: Node, votes: map<Id, Hash>, who: Id, z: Hash, ops: Ops, sig: Bytes)
    requires sc.Set() && Views(sc, n, votes) && IsBlock(sc, who, z, ops, sig)
    ensures var n' := Hold(As(sc.cfg, id), n, HeaderOf(sc, who, ops), ops);
      && Views(sc, n', votes) && Holds(sc, n', z)
      && (forall z :: Holds(sc, n, z) ==> Holds(sc, n', z))
  {
  }

  lemma AddsUnexecuted(sc: Scene, id: Id, n: Node, header: Header, ops: Ops)
    requires Untouched(sc, n)
    ensures Untouched(sc, Hold(As(sc.cfg, id), n, header, ops))
  {
  }

  function AcceptOf(sc: Scene, who: Id, ops: Ops, sig: Bytes): Event {
    var header := HeaderOf(sc, who, ops);
    Accept(header, sig, ops, header.timestamp, true, sc.start.roster)
  }

  function AttestOf(sc: Scene, voter: Id, z: Hash): Event { Attest(voter, sc.Height(), z, sc.start.roster) }

  /** No votes yet, or the node's own vote is with the leader `Y`. */
  predicate Content(sc: Scene, id: Id, votes: map<Id, Hash>) {
    IsMember(sc, id) && Undecided(sc, votes) && (votes == map[] || (Ahead(sc, votes, sc.y) && Backs(votes, id, sc.y)))
  }

  /** A content node only adds the block it receives. */
  lemma Accepts(sc: Scene, id: Id, n: Node, votes: map<Id, Hash>, who: Id, z: Hash, ops: Ops, sig: Bytes)
    requires sc.Set() && Views(sc, n, votes) && IsBlock(sc, who, z, ops, sig)
    requires Content(sc, id, votes) && (votes == map[] || Holds(sc, n, sc.y))
    ensures Step(As(sc.cfg, id), n, AcceptOf(sc, who, ops, sig), Hold(As(sc.cfg, id), n, HeaderOf(sc, who, ops), ops))
  {
    Passes(sc, id, n, votes, who, z, ops, sig);
    Adds(sc, id, n, votes, who, z, ops, sig);
    if votes != map[] { Stays(sc, id, Hold(As(sc.cfg, id), n, HeaderOf(sc, who, ops), ops), votes, sc.y); }
  }

  /** What recording another node's vote, or moving the own one, changes in a view. */
  lemma Recorded(sc: Scene, n: Node, votes: map<Id, Hash>, voter: Id, z: Hash)
    requires Views(sc, n, votes)
    ensures var n' := RecordVote(n, voter, sc.Height(), z);
      Views(sc, n', votes[voter := z]) && n'.candidates == n.candidates && n'.store == n.store
  {
  }

  lemma Moved(sc: Scene, id: Id, n: Node, votes: map<Id, Hash>, z: Hash)
    requires Views(sc, n, votes)
    ensures var n' := MoveVote(As(sc.cfg, id), n, sc.Height(), z);
      && Views(sc, n', votes[id := z]) && n'.candidates == n.candidates && n'.store == n.store
      && Ballot(id, sc.Height(), z) in OwnBallots(id, n')
  {
    assert (sc.Height(), z) in MoveVote(As(sc.cfg, id), n, sc.Height(), z).revotes;
  }

  lemma Attests(sc: Scene, id: Id, n: Node, votes: map<Id, Hash>, voter: Id, z: Hash, n': Node)
    requires sc.Set() && Views(sc, n, votes) && IsMember(sc, voter)
    requires Reevaluates(As(sc.cfg, id), RecordVote(n, voter, sc.Height(), z), sc.Height(), sc.start.roster, n')
    ensures Step(As(sc.cfg, id), n, AttestOf(sc, voter, z), n')
  {
    Admitted(sc, n, votes, voter);
    AttestStep(As(sc.cfg, id), n, voter, sc.Height(), z, sc.start.roster, n');
  }

  lemma Admitted(sc: Scene, n: Node, votes: map<Id, Hash>, voter: Id)
    requires sc.Seated() && Views(sc, n, votes) && IsMember(sc, voter)
    ensures VoteAdmitted(n, voter, sc.Height())
  {
    MemberActive(sc, voter);
  }

  lemma AttestStep(cfg: Config, n: Node, voter: Id, h: nat, z: Hash, roster: Roster, n': Node)
    requires VoteAdmitted(n, voter, h) && Reevaluates(cfg, RecordVote(n, voter, h, z), h, roster, n')
    ensures Step(cfg, n, Attest(voter, h, z, roster), n')
  {
  }

  // ---------- Hearing of a vote ----------

  /** With this vote `z` leads, undecided, and the node's own vote is elsewhere. */
  predicate Tips(sc: Scene, id: Id, votes: map<Id, Hash>, voter: Id, z: Hash) {
    && IsMember(sc, id) && IsMember(sc, voter) && voter != id && !Backs(votes, id, z)
    && Ahead(sc, votes[voter := z], z) && Undecided(sc, votes[voter := z])
  }

  function Shifted(votes: map<Id, Hash>, voter: Id, id: Id, z: Hash): map<Id, Hash> { votes[voter := z][id := z] }

  /** Now `z` leads and the node moves its vote there. */
  lemma HearsAndMoves(sc: Scene, id: Id, n: Node, votes: map<Id, Hash>, voter: Id, z: Hash) returns (n': Node)
    requires sc.Set() && Views(sc, n, votes) && Holds(sc, n, z) && Tips(sc, id, votes, voter, z)
    requires Count(sc, Shifted(votes, voter, id, z), z) < 3
    ensures Views(sc, n', Shifted(votes, voter, id, z)) && n'.candidates == n.candidates && n'.store == n.store
    ensures Ballot(id, sc.Height(), z) in OwnBallots(id, n')
    ensures Step(As(sc.cfg, id), n, AttestOf(sc, voter, z), n')
  {
    var heard := RecordVote(n, voter, sc.Height(), z);
    Recorded(sc, n, votes, voter, z);
    n' := MoveVote(As(sc.cfg, id), heard, sc.Height(), z);
    Moved(sc, id, heard, votes[voter := z], z);
    MovesThere(sc, id, heard, votes[voter := z], z, n');
    Attests(sc, id, n, votes, voter, z, n');
  }

  /** Now `z` leads and the node's move completes a quorum for it. */
  lemma HearsAndFinalizes(sc: Scene, id: Id, n: Node, votes: map<Id, Hash>, voter: Id, z: Hash) returns (n': Node)
    requires sc.Set() && Views(sc, n, votes) && Holds(sc, n, z) && Untouched(sc, n) && Tips(sc, id, votes, voter, z)
    requires Count(sc, Shifted(votes, voter, id, z), z) >= 3
    ensures EndsWith(sc, n', z)
    ensures Step(As(sc.cfg, id), n, AttestOf(sc, voter, z), n')
  {
    var heard := RecordVote(n, voter, sc.Height(), z);
    Recorded(sc, n, votes, voter, z);
    var m := MoveVote(As(sc.cfg, id), heard, sc.Height(), z);
    Moved(sc, id, heard, votes[voter := z], z);
    n' := FinalizesHeld(sc, id, m, votes[voter := z][id := z], z);
    MovesThere(sc, id, heard, votes[voter := z], z, n');
    Attests(sc, id, n, votes, voter, z, n');
  }

  lemma QuorumWins(sc: Scene, n: Node, votes: map<Id, Hash>, voter: Id, z: Hash)
    requires sc.Seated() && Views(sc, n, votes) && Holds(sc, n, z) && Count(sc, votes, z) >= 3 && Backs(votes, voter, z)
    ensures Wins(n, sc.Height(), z)
  {
    Counted(sc, votes, z);
  }

  lemma QuorumFinalizes(sc: Scene, id: Id, n: Node, votes: map<Id, Hash>, voter: Id, z: Hash) returns (n': Node)
    requires sc.Set() && Views(sc, n, votes) && Holds(sc, n, z) && Count(sc, votes, z) >= 3 && Backs(votes, voter, z)
    requires Untouched(sc, n)
    ensures EndsWith(sc, n', z) && Reevaluates(As(sc.cfg, id), n, sc.Height(), sc.start.roster, n')
  {
    QuorumWins(sc, n, votes, voter, z);
    n' := FinalizesHeld(sc, id, n, votes, z);
    WinnerFinalizes(As(sc.cfg, id), n, sc.Height(), z, sc.start.roster, n');
  }

  /** The vote itself completes a quorum for `z`. */
  lemma HearsQuorum(sc: Scene, id: Id, n: Node, votes: map<Id, Hash>, voter: Id, z: Hash) returns (n': Node)
    requires sc.Set() && Views(sc, n, votes) && Holds(sc, n, z) && IsMember(sc, voter)
    requires Untouched(sc, n) && Count(sc, votes[voter := z], z) >= 3
    ensures EndsWith(sc, n', z)
    ensures Step(As(sc.cfg, id), n, AttestOf(sc, voter, z), n')
  {
    Recorded(sc, n, votes, voter, z);
    n' := QuorumFinalizes(sc, id, RecordVote(n, voter, sc.Height(), z), votes[voter := z], voter, z);
    Attests(sc, id, n, votes, voter, z, n');
  }

  /** `Y` still leads and the node keeps its vote. */
  lemma HearsAndStays(sc: Scene, id: Id, n: Node, votes: map<Id, Hash>, voter: Id, z: Hash)
    requires sc.Set() && Views(sc, n, votes) && Holds(sc, n, sc.y) && IsMember(sc, voter) && Content(sc, id, votes[voter := z])
    ensures Step(As(sc.cfg, id), n, AttestOf(sc, voter, z), RecordVote(n, voter, sc.Height(), z))
  {
    var heard := RecordVote(n, voter, sc.Height(), z);
    Recorded(sc, n, votes, voter, z);
    Stays(sc, id, heard, votes[voter := z], sc.y);
    Attests(sc, id, n, votes, voter, z, heard);
  }

  // ---------- The run ----------

  function Start(sc: Scene): Network {
    Network(map[sc.p := sc.start, sc.q := sc.start, sc.r := sc.start, sc.s := sc.start], {}, {})
  }

  predicate Has(sc: Scene, v: Network, voter: Id, z: Hash) { Ballot(voter, sc.Height(), z) in v.cast }

  /** A network reached from the start that knows the votes of both proposers. */
  ghost predicate Underway(sc: Scene, v: Network) {
    && sc.p in v.nodes && sc.q in v.nodes && sc.r in v.nodes && sc.s in v.nodes
    && Reaches(sc.cfg, Start(sc), v) && Has(sc, v, sc.p, sc.x) && Has(sc, v, sc.q, sc.y)
  }

  /** Only this node has moved; ballots and certificates stay. */
  ghost predicate Only(v: Network, id: Id, n': Node, v': Network) {
    v'.nodes == v.nodes[id := n'] && v.cast <= v'.cast && v.finals <= v'.finals
  }

  lemma OnlyStill(v: Network, u: Network, v': Network, id: Id, n: Node, n': Node)
    requires Only(v, id, n, u) && Only(u, id, n', v')
    ensures Only(v, id, n', v')
  {
  }

  lemma Goes(sc: Scene, v: Network, id: Id, e: Event, n': Node) returns (v': Network)
    requires Underway(sc, v) && id in v.nodes && Step(As(sc.cfg, id), v.nodes[id], e, n')
    requires e.Attest? ==> Ballot(e.voter, e.height, e.hash) in v.cast
    ensures Underway(sc, v') && Only(v, id, n', v')
    ensures OwnBallots(id, n') <= v'.cast && NewFinals(sc.cfg, id, v.nodes[id], n') <= v'.finals
  {
    v' := Act(sc.cfg, Start(sc), v, id, e, n');
  }

  /** What a node keeps when it receives a block. */
  ghost predicate Keeps(sc: Scene, n: Node, n': Node) {
    (forall z :: Holds(sc, n, z) ==> Holds(sc, n', z)) && (Untouched(sc, n) ==> Untouched(sc, n'))
  }

  /** A node receives one of the two blocks. */
  lemma Receives(sc: Scene, v: Network, id: Id, n: Node, votes: map<Id, Hash>, who: Id, z: Hash, ops: Ops, sig: Bytes)
    returns (v': Network, n': Node)
    requires sc.Set() && Underway(sc, v) && id in v.nodes && n == v.nodes[id]
    requires IsBlock(sc, who, z, ops, sig) && Views(sc, n, votes)
    requires Content(sc, id, votes) && (votes == map[] || Holds(sc, n, sc.y))
    ensures Underway(sc, v') && Only(v, id, n', v')
    ensures Views(sc, n', votes) && Holds(sc, n', z) && Keeps(sc, n, n')
  {
    n' := Hold(As(sc.cfg, id), n, HeaderOf(sc, who, ops), ops);
    assert Step(As(sc.cfg, id), n, AcceptOf(sc, who, ops, sig), n') by { Accepts(sc, id, n, votes, who, z, ops, sig); }
    v' := Goes(sc, v, id, AcceptOf(sc, who, ops, sig), n');
    assert Views(sc, n', votes) && Holds(sc, n', z) && Keeps(sc, n, n') by {
      Adds(sc, id, n, votes, who, z, ops, sig);
      if Untouched(sc, n) { AddsUnexecuted(sc, id, n, HeaderOf(sc, who, ops), ops); }
    }
  }

  /** It hears of a vote and moves its own. */
  lemma Turns(sc: Scene, v: Network, id: Id, n: Node, votes: map<Id, Hash>, voter: Id, z: Hash)
    returns (v': Network, n': Node)
    requires sc.Set() && Underway(sc, v) && id in v.nodes && n == v.nodes[id] && Has(sc, v, voter, z)
    requires Views(sc, n, votes) && Holds(sc, n, z) && Tips(sc, id, votes, voter, z)
    requires Count(sc, Shifted(votes, voter, id, z), z) < 3
    ensures Underway(sc, v') && Only(v, id, n', v') && Has(sc, v', id, z)
    ensures Views(sc, n', Shifted(votes, voter, id, z)) && Keeps(sc, n, n')
  {
    n' := HearsAndMoves(sc, id, n, votes, voter, z);
    v' := Goes(sc, v, id, AttestOf(sc, voter, z), n');
  }

  /** Both blocks are proposed. */
  lemma Launches(sc: Scene, v: Network, who: Id, z: Hash, ops: Ops, sig: Bytes) returns (v': Network, n': Node)
    requires sc.Set() && Reaches(sc.cfg, Start(sc), v) && IsBlock(sc, who, z, ops, sig)
    requires who in v.nodes && v.nodes[who] == sc.start
    ensures Reaches(sc.cfg, Start(sc), v') && Only(v, who, n', v') && Has(sc, v', who, z)
    ensures Views(sc, n', map[who := z]) && Holds(sc, n', z)
  {
    n' := Propose(As(sc.cfg, who), sc.start, ops);
    Proposes(sc, who, z, ops, sig);
    v' := Act(sc.cfg, Start(sc), v, who, Produce(ops, sc.start.roster), n');
  }

  lemma Opening(sc: Scene) returns (v: Network, nq: Node)
    requires sc.Set()
    ensures Underway(sc, v) && v.nodes[sc.q] == nq && v.nodes[sc.r] == v.nodes[sc.s] == sc.start
    ensures Views(sc, nq, map[sc.q := sc.y]) && Holds(sc, nq, sc.y)
  {
    ReachesItself(sc.cfg, Start(sc));
    var u, np := Launches(sc, Start(sc), sc.p, sc.x, sc.opsX, sc.sigX);
    v, nq := Launches(sc, u, sc.q, sc.y, sc.opsY, sc.sigY);
  }

  // The tallies each node sees along the way.

  function Joined(sc: Scene, id: Id): map<Id, Hash> { Shifted(map[], sc.q, id, sc.y) }

  lemma TallyOfJoiner(sc: Scene, id: Id)
    requires sc.Distinct() && (id == sc.r || id == sc.s)
    ensures Content(sc, id, map[]) && Tips(sc, id, map[], sc.q, sc.y) && Count(sc, Joined(sc, id), sc.y) == 2
  {
  }

  lemma TallyOfQ(sc: Scene)
    requires sc.Distinct()
    ensures var votes := map[sc.q := sc.y];
      && Content(sc, sc.q, votes) && Tips(sc, sc.q, votes, sc.p, sc.x)
      && Count(sc, Shifted(votes, sc.p, sc.q, sc.x), sc.x) == 2
  {
  }

  lemma TallyOfR(sc: Scene)
    requires sc.Distinct()
    ensures var votes, one := Joined(sc, sc.r), Joined(sc, sc.r)[sc.p := sc.x];
      && Content(sc, sc.r, votes) && Content(sc, sc.r, one) && Tips(sc, sc.r, one, sc.q, sc.x)
      && Count(sc, Shifted(one, sc.q, sc.r, sc.x), sc.x) == 3
  {
  }

  lemma TallyOfS(sc: Scene)
    requires sc.Distinct()
    ensures Count(sc, Joined(sc, sc.s)[sc.r := sc.y], sc.y) == 3
  {
  }

  /** A bystander receives `Y`, hears of its proposer's vote and votes for it too. */
  lemma Joins(sc: Scene, v: Network, id: Id) returns (v': Network, n': Node)
    requires sc.Set() && Underway(sc, v) && (id == sc.r || id == sc.s) && v.nodes[id] == sc.start
    ensures Underway(sc, v') && Only(v, id, n', v') && Has(sc, v', id, sc.y)
    ensures Views(sc, n', Joined(sc, id)) && Holds(sc, n', sc.y) && Untouched(sc, n')
  {
    TallyOfJoiner(sc, id);
    var u, n := Receives(sc, v, id, sc.start, map[], sc.q, sc.y, sc.opsY, sc.sigY);
    v', n' := Turns(sc, u, id, n, map[], sc.q, sc.y);
    OnlyStill(v, u, v', id, n, n');
  }

  /** A node at the start that ends with a block puts its certificate on record. */
  lemma Certifies(sc: Scene, id: Id, n: Node, n': Node, z: Hash)
    requires n.chain == sc.start.chain && n.roster == sc.start.roster && EndsWith(sc, n', z)
    ensures exists c :: c in NewFinals(sc.cfg, id, n, n') && IsFor(sc, c, z)
  {
    var b := n'.chain[|sc.start.chain|];
    var c := Certificate(id, b.header.height, sc.cfg.hash(b.header), n.roster.validators, b.attesters);
    assert c in NewFinals(sc.cfg, id, n, n');
  }

  predicate IsFor(sc: Scene, c: Certificate, z: Hash) {
    c.height == sc.Height() && c.hash == z && c.validators == sc.start.roster.validators
  }

  predicate Final(sc: Scene, v: Network, z: Hash) { exists c :: c in v.finals && IsFor(sc, c, z) }

  /** With a second bystander's vote, `Y` is final at `s`. */
  lemma FinalizesY(sc: Scene, v: Network, n: Node) returns (v': Network, n': Node)
    requires sc.Set() && Underway(sc, v) && v.nodes[sc.s] == n && Has(sc, v, sc.r, sc.y)
    requires Views(sc, n, Joined(sc, sc.s)) && Holds(sc, n, sc.y) && Untouched(sc, n)
    ensures Underway(sc, v') && Only(v, sc.s, n', v') && Final(sc, v', sc.y)
  {
    TallyOfS(sc);
    n' := HearsQuorum(sc, sc.s, n, Joined(sc, sc.s), sc.r, sc.y);
    v' := Goes(sc, v, sc.s, AttestOf(sc, sc.r, sc.y), n');
    Certifies(sc, sc.s, n, n', sc.y);
  }

  /** `q` receives `X`, hears of its proposer's vote, and moves: one vote each, and `X` ranks first. */
  lemma SwitchesToX(sc: Scene, v: Network, n: Node) returns (v': Network, n': Node)
    requires sc.Set() && Underway(sc, v) && v.nodes[sc.q] == n
    requires Views(sc, n, map[sc.q := sc.y]) && Holds(sc, n, sc.y)
    ensures Underway(sc, v') && Only(v, sc.q, n', v') && Has(sc, v', sc.q, sc.x)
  {
    TallyOfQ(sc);
    var u, m := Receives(sc, v, sc.q, n, map[sc.q := sc.y], sc.p, sc.x, sc.opsX, sc.sigX);
    v', n' := Turns(sc, u, sc.q, m, map[sc.q := sc.y], sc.p, sc.x);
    OnlyStill(v, u, v', sc.q, m, n');
  }

  /** `r` receives `X` and hears of both votes for it: its own move makes `X` final. */
  lemma FinalizesX(sc: Scene, v: Network, n: Node) returns (v': Network)
    requires sc.Set() && Underway(sc, v) && v.nodes[sc.r] == n && Has(sc, v, sc.q, sc.x)
    requires Views(sc, n, Joined(sc, sc.r)) && Holds(sc, n, sc.y) && Untouched(sc, n)
    ensures Underway(sc, v') && v.finals <= v'.finals && Final(sc, v', sc.x)
  {
    TallyOfR(sc);
    var votes := Joined(sc, sc.r);
    var u, m := Receives(sc, v, sc.r, n, votes, sc.p, sc.x, sc.opsX, sc.sigX);
    HearsAndStays(sc, sc.r, m, votes, sc.p, sc.x);
    var one := RecordVote(m, sc.p, sc.Height(), sc.x);
    Recorded(sc, m, votes, sc.p, sc.x);
    u := Goes(sc, u, sc.r, AttestOf(sc, sc.p, sc.x), one);
    var n' := HearsAndFinalizes(sc, sc.r, one, votes[sc.p := sc.x], sc.q, sc.x);
    v' := Goes(sc, u, sc.r, AttestOf(sc, sc.q, sc.x), n');
    Certifies(sc, sc.r, one, n', sc.x);
  }

  /** Four honest nodes with one view of the stakes, none of which ever signs outside the
      fork choice, finalize two different blocks at one height. */
  lemma HonestNodesFork(sc: Scene) returns (v: Network)
    requires sc.Set()
    ensures NetworkInv(sc.cfg, Start(sc)) && Reaches(sc.cfg, Start(sc), v)
    ensures exists c, d ::
              && c in v.finals && d in v.finals
              && c.height == d.height && c.validators == d.validators && c.hash != d.hash
  {
    var u, nq := Opening(sc);
    var nr, ns: Node;
    u, nr := Joins(sc, u, sc.r);
    u, ns := Joins(sc, u, sc.s);
    u, ns := FinalizesY(sc, u, ns);
    u, nq := SwitchesToX(sc, u, nq);
    v := FinalizesX(sc, u, nr);
    StartSincere(sc);
    var c :| c in u.finals && IsFor(sc, c, sc.y);
    var d :| d in v.finals && IsFor(sc, d, sc.x);
  }

  lemma StartSincere(sc: Scene)
    requires sc.Set()
    ensures NetworkInv(sc.cfg, Start(sc))
  {
    assert Sincere(sc.cfg, {}, sc.p, sc.start);
  }
}
