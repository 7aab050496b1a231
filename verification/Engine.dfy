/** State and steps of one consensus node under attestation-aware fork choice (v2).

    A step is a relation between node states: hash maps are walked in an order the
    code does not fix, and that order is the only freedom a step has. */
module Engine {
  import opened Types
  import opened Storage
  import opened Validators

  type Ops = seq<UserOperation>

  /** A header without its signature, which the block hash leaves out as well. */
  datatype Header = Header(
    height: nat, epoch: nat, parentHash: Hash, stateRoot: Hash, opsRoot: Hash,
    receiptsRoot: Hash, proposer: Id, timestamp: nat)

  /** What producing a block leaves behind: its root and the undo of its writes. */
  datatype Execution = Execution(root: Hash, revert: Delta)

  /** A candidate at the next height. Own candidates are executed when produced,
      peer candidates only when finalized. */
  datatype Pending = Pending(header: Header, ops: Ops, execution: Option<Execution>)

  datatype FinalizedBlock = FinalizedBlock(
    header: Header, resultRoot: Hash, attesters: set<Id>, ops: Ops)

  datatype JournalEntry = JournalEntry(height: nat, revert: Delta)

  /** The validator set and proposer seed in force. */
  datatype Roster = Roster(validators: seq<ValidatorInfo>, seed: Hash)

  /** What the model leaves open: execution, hashing, signatures and random draws.
      `preimage` is not part of any step; it serves to say that roots do not collide. */
  datatype Config = Config(
    self: Id,
    blockTime: nat,
    stage: (Store, Ops, nat) -> Changes,
    root: StateMap -> Hash,
    preimage: Hash -> StateMap,
    hash: Header -> Hash,
    opsRoot: Ops -> Hash,
    receiptsRoot: (Store, Ops, nat) -> Hash,
    draw: (Hash, nat, Id) -> nat,
    verify: (Id, Hash, Bytes) -> bool)

  datatype Node = Node(
    store: Store,
    chain: seq<FinalizedBlock>,
    candidates: map<nat, map<Hash, Pending>>,
    votes: map<nat, map<Id, Hash>>,
    revotes: seq<(nat, Hash)>,
    invalid: map<nat, set<Hash>>,
    journal: seq<JournalEntry>,
    roster: Roster,
    needsResync: bool,
    resyncing: bool)

  const JOURNAL_CAP: nat := 256
  const VOTE_LOOKAHEAD: nat := 64
  const MAX_TIMESTAMP_DRIFT: nat := 30_000

  function Height(n: Node): nat {
    if n.chain == [] then 0 else n.chain[|n.chain| - 1].header.height
  }

  function Next(n: Node): nat { Height(n) + 1 }

  function CandidatesAt(n: Node, h: nat): map<Hash, Pending> {
    if h in n.candidates then n.candidates[h] else map[]
  }

  function VotesAt(n: Node, h: nat): map<Id, Hash> {
    if h in n.votes then n.votes[h] else map[]
  }

  function InvalidAt(n: Node, h: nat): set<Hash> {
    if h in n.invalid then n.invalid[h] else {}
  }

  /** Entries strictly above a height (`retain`). */
  function Above<T>(m: map<nat, T>, h: nat): map<nat, T> {
    map k | k in m && k > h :: m[k]
  }

  // ---------- Rollback journal ----------

  /** Appends an entry; a gap in heights drops everything before it, and only the
      newest `cap` entries stay. */
  function Record(entries: seq<JournalEntry>, cap: nat, height: nat, revert: Delta): seq<JournalEntry>
  {
    var kept := if entries != [] && height != entries[|entries| - 1].height + 1 then [] else entries;
    var grown := kept + [JournalEntry(height, revert)];
    if |grown| > cap then grown[|grown| - cap..] else grown
  }

  // ---------- Durable undo records ----------

  /** Heights above `tip` with a readable durable undo record. */
  function RecordHeights(s: Store, tip: nat): set<nat> {
    set k | k in s && k.EagerRevert? && k.height > tip && s[k].Undo? :: k.height
  }

  lemma HasMax(hs: set<nat>)
    requires hs != {}
    ensures exists m :: m in hs && forall x :: x in hs ==> x <= m
  {
    var h :| h in hs;
    if hs == {h} {
    } else {
      HasMax(hs - {h});
      var m :| m in hs - {h} && forall x :: x in hs - {h} ==> x <= m;
      var r := if h < m then m else h;
      forall x | x in hs ensures x <= r { assert x == h || x in hs - {h}; }
    }
  }

  ghost function Newest(hs: set<nat>): (m: nat)
    requires hs != {}
    ensures m in hs && forall x :: x in hs ==> x <= m
  {
    HasMax(hs);
    var m :| m in hs && forall x :: x in hs ==> x <= m;
    m
  }

  /** Applies the records read from `records` at the heights `hs`, newest first. */
  ghost function Replay(s: Store, records: Store, hs: set<nat>): Store
    requires forall h :: h in hs ==> EagerRevert(h) in records && records[EagerRevert(h)].Undo?
    decreases hs
  {
    if hs == {} then s
    else
      var h := Newest(hs);
      Replay(Apply(s, records[EagerRevert(h)].delta), records, hs - {h})
  }

  /** `apply_durable_reverts_above` */
  ghost function Repair(s: Store, tip: nat): Store {
    Replay(s, s, RecordHeights(s, tip))
  }

  // ---------- Restoring the finalized tip ----------

  function ExecutedAt(n: Node): set<(nat, Hash)> {
    set h, x | h in n.candidates && x in n.candidates[h] && n.candidates[h][x].execution.Some? :: (h, x)
  }

  /** An order in which the executed candidates may be undone: each once, heights
      never increasing. */
  ghost predicate UndoOrder(n: Node, order: seq<(nat, Hash)>) {
    && (forall p :: p in order <==> p in ExecutedAt(n))
    && |order| == |ExecutedAt(n)|
    && (forall i, j :: 0 <= i < j < |order| ==> order[i].0 >= order[j].0)
  }

  function UndoAll(s: Store, n: Node, order: seq<(nat, Hash)>): Store
    requires forall p :: p in order ==> p in ExecutedAt(n)
    decreases |order|
  {
    if order == [] then s
    else
      assert order[0] in ExecutedAt(n);
      UndoAll(Apply(s, n.candidates[order[0].0][order[0].1].execution.value.revert), n, order[1..])
  }

  function DropExecuted(n: Node): map<nat, map<Hash, Pending>> {
    map h | h in n.candidates ::
      map x | x in n.candidates[h] && n.candidates[h][x].execution.None? :: n.candidates[h][x]
  }

  function RootOf(cfg: Config, s: Store): Hash { cfg.root(StateOf(s)) }

  /** Last resort of a restore: the durable records, or a resync request. */
  ghost function Reconciled(cfg: Config, n: Node): (m: Node)
    requires n.chain != []
    ensures m == n.(store := m.store, needsResync := m.needsResync)
  {
    var tipRoot := n.chain[|n.chain| - 1].resultRoot;
    if RootOf(cfg, n.store) == tipRoot then n
    else
      var repaired := Repair(n.store, Height(n));
      if RecordHeights(n.store, Height(n)) != {} && RootOf(cfg, repaired) == tipRoot
      then n.(store := repaired)
      else n.(store := repaired, needsResync := true)
  }

  /** `restore_store_to_finalized_tip`, undoing candidates in the given order. */
  ghost function RestoreIn(cfg: Config, n: Node, order: seq<(nat, Hash)>): (m: Node)
    requires UndoOrder(n, order)
    ensures m == n.(store := m.store, candidates := m.candidates, needsResync := m.needsResync)
    ensures m.candidates == n.candidates || m.candidates == DropExecuted(n)
  {
    if n.chain == [] || RootOf(cfg, n.store) == n.chain[|n.chain| - 1].resultRoot then n
    else Reconciled(cfg, n.(store := UndoAll(n.store, n, order), candidates := DropExecuted(n)))
  }

  ghost predicate Restores(cfg: Config, n: Node, n': Node) {
    exists order :: UndoOrder(n, order) && n' == RestoreIn(cfg, n, order)
  }

  // ---------- Producing ----------

  /** The undo of a produced block: the old values it overwrote, and the removal of
      the durable record itself. */
  function EagerUndo(s: Store, height: nat, changes: Changes): Delta {
    Capture(s, changes.Keys)[EagerRevert(height) := None]
  }

  /** One batch: the block's writes and their durable undo record. */
  function EagerCommit(s: Store, height: nat, changes: Changes): Store {
    Apply(s, changes[EagerRevert(height) := Some(Undo(EagerUndo(s, height, changes)))])
  }

  /** The header of a block on a chain, given the two roots that execution yields. */
  function HeaderOn(cfg: Config, chain: seq<FinalizedBlock>, h: nat, ops: Ops, stateRoot: Hash, receiptsRoot: Hash): Header {
    var parentHash := if chain == [] then 0 else cfg.hash(chain[|chain| - 1].header);
    var parentTime := if chain == [] then 0 else chain[|chain| - 1].header.timestamp;
    Header(h, h / EPOCH_LENGTH, parentHash, stateRoot, cfg.opsRoot(ops), receiptsRoot,
           cfg.self, Min(parentTime + cfg.blockTime, MAX_U64))
  }

  function Proposal(cfg: Config, n: Node, ops: Ops): Header {
    var h := Next(n);
    var after := EagerCommit(n.store, h, cfg.stage(n.store, ops, h));
    HeaderOn(cfg, n.chain, h, ops, RootOf(cfg, after), cfg.receiptsRoot(n.store, ops, h))
  }

  /** Execute, keep the candidate with its undo, and vote for it. */
  function Propose(cfg: Config, n: Node, ops: Ops): Node {
    var h := Next(n);
    var changes := cfg.stage(n.store, ops, h);
    var after := EagerCommit(n.store, h, changes);
    var header := Proposal(cfg, n, ops);
    var x := cfg.hash(header);
    var own := Pending(header, ops, Some(Execution(header.stateRoot, EagerUndo(n.store, h, changes))));
    n.(store := after[LastAttestation := Vote(h, x)],
       candidates := n.candidates[h := CandidatesAt(n, h)[x := own]],
       votes := n.votes[h := VotesAt(n, h)[cfg.self := x]],
       revotes := n.revotes + [(h, x)])
  }

  // ---------- Finalizing ----------

  /** Append an executed block: chain, journal, bookkeeping keys and roster. */
  function Append(cfg: Config, n: Node, h: nat, pb: Pending, e: Execution,
                  attesters: set<Id>, roster: Roster): Node
  {
    n.(chain := n.chain + [FinalizedBlock(pb.header, e.root, attesters, pb.ops)],
       journal := Record(n.journal, JOURNAL_CAP, h, e.revert),
       store := (n.store - {EagerRevert(h)})
                [BlockBody(pb.header.height) := Body(cfg.hash(pb.header))]
                [ChainMeta := Meta(pb.header.height, pb.header.epoch)],
       invalid := Above(n.invalid, h),
       roster := roster)
  }

  /** Mark a block whose claimed root execution did not reproduce, and take back our
      vote for it. */
  function Reject(cfg: Config, n: Node, h: nat, bad: Hash): Node {
    var mine := VotesAt(n, h);
    n.(invalid := n.invalid[h := InvalidAt(n, h) + {bad}],
       votes := if h in n.votes && cfg.self in mine && mine[cfg.self] == bad
                then n.votes[h := mine - {cfg.self}] else n.votes)
  }

  /** The root that executing a block on this store yields. */
  function ExecutedRoot(cfg: Config, s: Store, ops: Ops, h: nat): Hash {
    RootOf(cfg, Apply(s, cfg.stage(s, ops, h)))
  }

  /** `finalize_pending_block`; `n` has been restored first when the block is a peer's. */
  function Conclude(cfg: Config, n: Node, h: nat, pb: Pending, attesters: set<Id>, roster: Roster): (r: Node)
    ensures r.revotes == n.revotes
    ensures r.votes == n.votes || (h in n.votes && r.votes == n.votes[h := n.votes[h] - {cfg.self}])
  {
    match pb.execution
    case Some(e) => Append(cfg, n, h, pb, e, attesters, roster)
    case None =>
      var changes := cfg.stage(n.store, pb.ops, h);
      var undo := Capture(n.store, changes.Keys);
      var after := Apply(n.store, changes);
      if ExecutedRoot(cfg, n.store, pb.ops, h) == pb.header.stateRoot
      then Append(cfg, n.(store := after), h, pb, Execution(pb.header.stateRoot, undo), attesters, roster)
      else Reject(cfg, n.(store := Apply(after, undo)), h, cfg.hash(pb.header))
  }

  function VotersFor(votes: map<Id, Hash>, x: Hash): set<Id> {
    set v | v in votes && votes[v] == x
  }

  function Voters(n: Node, h: nat, x: Hash): set<Id> { VotersFor(VotesAt(n, h), x) }

  function TakeCandidate(n: Node, h: nat, x: Hash): Node {
    n.(candidates := if h in n.candidates then n.candidates[h := n.candidates[h] - {x}] else n.candidates)
  }

  function Forget(n: Node, h: nat): Node {
    n.(candidates := Above(n.candidates, h), votes := Above(n.votes, h))
  }

  /** The node on which a candidate is concluded: a peer block first brings the
      store back to the tip. */
  ghost predicate ReadyFor(cfg: Config, n: Node, pb: Pending, m: Node) {
    if pb.execution.Some? then m == n else Restores(cfg, n, m)
  }

  /** `v2_finalize` */
  ghost predicate Finalizes(cfg: Config, n: Node, h: nat, x: Hash, roster: Roster, n': Node) {
    if x !in CandidatesAt(n, h) then n' == n
    else
      var pb := CandidatesAt(n, h)[x];
      exists m :: ReadyFor(cfg, TakeCandidate(n, h, x), pb, m)
                  && n' == Forget(Conclude(cfg, m, h, pb, Voters(n, h, x), roster), h)
  }

  // ---------- Fork choice ----------

  /** A hash with votes that may lead: held, and not known to be invalid. */
  predicate Viable(n: Node, h: nat, x: Hash) {
    x in VotesAt(n, h).Values && x !in InvalidAt(n, h) && x in CandidatesAt(n, h)
  }

  /** A hash to finalize now: viable and backed by a quorum. */
  predicate Wins(n: Node, h: nat, x: Hash) {
    Viable(n, h, x) && HasQuorum(n.roster.validators, Voters(n, h, x))
  }

  /** Position in the order; a proposer outside it ranks after everyone. */
  function Rank(order: seq<Id>, id: Id): nat {
    if order == [] then 0 else if order[0] == id then 0 else 1 + Rank(order[1..], id)
  }

  function RankOf(cfg: Config, n: Node, h: nat, x: Hash): nat {
    if x !in CandidatesAt(n, h) then 0
    else Rank(ProposerOrder(n.roster.validators, h, n.roster.seed, cfg.draw), CandidatesAt(n, h)[x].header.proposer)
  }

  function Weight(n: Node, h: nat, x: Hash): nat {
    StakeOf(n.roster.validators, Voters(n, h, x))
  }

  /** More stake, then lower proposer rank, then smaller hash. */
  predicate Beats(cfg: Config, n: Node, h: nat, x: Hash, y: Hash) {
    || Weight(n, h, x) > Weight(n, h, y)
    || (Weight(n, h, x) == Weight(n, h, y) &&
        (RankOf(cfg, n, h, x) < RankOf(cfg, n, h, y) || (RankOf(cfg, n, h, x) == RankOf(cfg, n, h, y) && x < y)))
  }

  ghost predicate Leads(cfg: Config, n: Node, h: nat, x: Hash) {
    Viable(n, h, x) && forall y :: Viable(n, h, y) && y != x ==> Beats(cfg, n, h, x, y)
  }

  function MoveVote(cfg: Config, n: Node, h: nat, x: Hash): Node {
    n.(votes := n.votes[h := VotesAt(n, h)[cfg.self := x]], revotes := n.revotes + [(h, x)])
  }

  /** A node moves its vote only when it is an active validator whose current vote
      is not the leader. */
  predicate WouldMove(cfg: Config, n: Node, h: nat, x: Hash) {
    IsActive(n.roster.validators, cfg.self)
    && !(cfg.self in VotesAt(n, h) && VotesAt(n, h)[cfg.self] == x)
  }

  /** Second half of `v2_reevaluate`: follow the leader, finalize it if that
      completes its quorum. */
  ghost predicate Follows(cfg: Config, n: Node, h: nat, x: Hash, roster: Roster, n': Node) {
    if !WouldMove(cfg, n, h, x) then n' == n
    else
      var m := MoveVote(cfg, n, h, x);
      if HasQuorum(m.roster.validators, Voters(m, h, x)) then Finalizes(cfg, m, h, x, roster, n')
      else n' == m
  }

  /** `v2_reevaluate` */
  ghost predicate Reevaluates(cfg: Config, n: Node, h: nat, roster: Roster, n': Node) {
    if h != Next(n) || VotesAt(n, h) == map[] then n' == n
    else if exists x :: Wins(n, h, x) then
      exists x :: Wins(n, h, x) && Finalizes(cfg, n, h, x, roster, n')
    else if exists x :: Leads(cfg, n, h, x) then
      exists x :: Leads(cfg, n, h, x) && Follows(cfg, n, h, x, roster, n')
    else n' == n
  }

  // ---------- Steps ----------

  ghost predicate Produces(cfg: Config, n: Node, ops: Ops, roster: Roster, n': Node) {
    exists m :: Restores(cfg, n, m) && Reevaluates(cfg, Propose(cfg, m, ops), Next(m), roster, n')
  }

  /** All checks of `accept_block`; `permitted` is the verdict of the trusted and the
      finalized checkpoints. */
  predicate Acceptable(cfg: Config, n: Node, header: Header, signature: Bytes, now: nat, permitted: bool) {
    && !n.resyncing
    && header.height == Next(n)
    && (n.chain != [] ==> header.parentHash == cfg.hash(n.chain[|n.chain| - 1].header))
    && cfg.hash(header) !in InvalidAt(n, header.height)
    && permitted
    && (n.chain != [] ==> header.timestamp > n.chain[|n.chain| - 1].header.timestamp)
    && header.timestamp <= now + MAX_TIMESTAMP_DRIFT
    && header.epoch == header.height / EPOCH_LENGTH
    && IsActive(n.roster.validators, header.proposer)
    && header.proposer in ProposerOrder(n.roster.validators, header.height, n.roster.seed, cfg.draw)
    && |signature| == 64
    && cfg.verify(header.proposer, cfg.hash(header), signature)
    && (forall i :: 0 <= i < |n.chain| ==> n.chain[i].header.height != header.height)
  }

  function Hold(cfg: Config, n: Node, header: Header, ops: Ops): Node {
    var x := cfg.hash(header);
    var held := CandidatesAt(n, header.height);
    n.(candidates := n.candidates[header.height :=
         if x in held then held else held[x := Pending(header, ops, None)]])
  }

  function RecordVote(n: Node, voter: Id, h: nat, x: Hash): Node {
    n.(votes := n.votes[h := VotesAt(n, h)[voter := x]])
  }

  predicate VoteAdmitted(n: Node, voter: Id, h: nat) {
    IsActive(n.roster.validators, voter) && Height(n) < h <= Height(n) + VOTE_LOOKAHEAD
  }

  /** `roster` is what the validator set and seed become if the step finalizes a
      block: the outcome of local slashing and of the epoch transition. */
  datatype Event =
    | Produce(ops: Ops, roster: Roster)
    | Accept(header: Header, signature: Bytes, ops: Ops, now: nat, permitted: bool, roster: Roster)
    | Attest(voter: Id, height: nat, hash: Hash, roster: Roster)
    | Jailing(roster: Roster)

  ghost predicate Step(cfg: Config, n: Node, e: Event, n': Node) {
    match e
    case Produce(ops, roster) => Produces(cfg, n, ops, roster, n')
    case Accept(header, signature, ops, now, permitted, roster) =>
      if Acceptable(cfg, n, header, signature, now, permitted)
      then Reevaluates(cfg, Hold(cfg, n, header, ops), header.height, roster, n')
      else n' == n
    case Attest(voter, h, x, roster) =>
      if VoteAdmitted(n, voter, h) then Reevaluates(cfg, RecordVote(n, voter, h, x), h, roster, n')
      else n' == n
    case Jailing(roster) => n' == n.(roster := roster)
  }
}
