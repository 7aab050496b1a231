/** What a node writes down: each finalized block's body, the height and epoch a restart
    reads, and as many undo entries as the journal holds. */
module BlockRecords {
  import opened Types
  import opened Storage
  import opened Engine
  import opened EngineInvariant
  import opened EngineSteps
  import opened EngineRuns
  import Progress
  import Validators

  predicate IsBook(k: Key) { k.BlockBody? || k.ChainMeta? }

  ghost predicate SameBooks(s: Store, t: Store) { forall k :: IsBook(k) ==> Lookup(s, k) == Lookup(t, k) }

  /** Execution and its undo touch none of this. */
  lemma UntouchedBooks(s: Store, d: Delta)
    requires forall k :: k in d ==> k.State? || k.Aux? || k.EagerRevert?
    ensures SameBooks(Apply(s, d), s) && Lookup(Apply(s, d), LastAttestation) == Lookup(s, LastAttestation)
  {
  }

  lemma RestoreBooks(cfg: Config, n: Node, hist: seq<StateMap>, m: Node)
    requires RootInjective(cfg) && Inv(cfg, n, hist) && Restores(cfg, n, m)
    ensures m == n.(store := m.store, candidates := m.candidates) && SameBooks(m.store, n.store) && NoteOf(m) == NoteOf(n)
  {
    RestoredNode(cfg, n, hist, m);
    if StateOf(n.store) != Tip(hist) {
      var d :| UndoOk(n, Tip(hist), d) && m == n.(store := Apply(n.store, d), candidates := DropExecuted(n));
      UndoBooks(n, Tip(hist), d);
    }
  }

  lemma UndoBooks(n: Node, tip: StateMap, d: Delta)
    requires UndoOk(n, tip, d)
    ensures SameBooks(Apply(n.store, d), n.store) && Lookup(Apply(n.store, d), LastAttestation) == NoteOf(n)
  {
    UntouchedBooks(n.store, d);
  }

  lemma ProposeBooks(cfg: Config, m: Node, ops: Ops)
    ensures SameBooks(Propose(cfg, m, ops).store, m.store)
    ensures NoteOf(Propose(cfg, m, ops)) == Some(Vote(Next(m), cfg.hash(Proposal(cfg, m, ops))))
  {
    ProposedStore(cfg, m, ops);
    forall k | IsBook(k) ensures Lookup(Propose(cfg, m, ops).store, k) == Lookup(m.store, k) {
      EagerCommitAt(m.store, Next(m), cfg.stage(m.store, ops, Next(m)), k);
    }
  }

  // ---------- One step ----------

  /** The new tip is written down: its body under its height, its height and epoch, and one
      more undo entry while there is room. */
  ghost predicate Written(cfg: Config, n: Node, n': Node) {
    && |n'.chain| == |n.chain| + 1 && n.chain <= n'.chain
    && var b := n'.chain[|n.chain|].header;
       && b.height == Next(n)
       && (forall g: nat :: g != b.height ==> Lookup(n'.store, BlockBody(g)) == Lookup(n.store, BlockBody(g)))
       && Lookup(n'.store, BlockBody(b.height)) == Some(Body(cfg.hash(b)))
       && Lookup(n'.store, ChainMeta) == Some(Meta(b.height, b.epoch))
       && |n'.journal| == Min(256, |n.journal| + 1)
  }

  /** `note` is the last attestation on record afterwards. */
  ghost predicate Booked(cfg: Config, n: Node, n': Node, note: Option<Value>) {
    && NoteOf(n') == note
    && (|| (n'.chain == n.chain && n'.journal == n.journal && SameBooks(n'.store, n.store))
        || Written(cfg, n, n'))
  }

  function NoteOf(n: Node): Option<Value> { Lookup(n.store, LastAttestation) }

  /** The journal ends at the tip. */
  predicate JournalAtTip(n: Node) {
    |n.journal| <= 256 && (n.journal == [] || n.journal[|n.journal| - 1].height == Height(n))
  }

  lemma AtTip(cfg: Config, n: Node, hist: seq<StateMap>)
    requires Inv(cfg, n, hist)
    ensures JournalAtTip(n)
  {
    LastEntry(n.chain, n.journal, hist);
  }

  lemma LastEntry(chain: seq<FinalizedBlock>, journal: seq<JournalEntry>, hist: seq<StateMap>)
    requires chain != [] && JournalOk(chain, journal, hist)
    ensures journal != [] ==> journal[|journal| - 1].height == chain[|chain| - 1].header.height
  {
    if journal != [] {
      var j := |journal| - 1;
      assert EntryOk(chain, hist, |chain| - |journal| + j, journal[j]);
    }
  }

  lemma AppendBooked(cfg: Config, n: Node, m: Node, h: nat, pb: Pending, e: Execution, attesters: set<Id>, roster: Roster)
    requires m.chain == n.chain && m.journal == n.journal && JournalAtTip(n)
    requires SameBooks(m.store, n.store) && NoteOf(m) == NoteOf(n)
    requires pb.header.height == h == Next(n)
    ensures Booked(cfg, n, Forget(Append(cfg, m, h, pb, e, attesters, roster), h), NoteOf(n))
  {
    var n' := Forget(Append(cfg, m, h, pb, e, attesters, roster), h);
    assert n'.chain[|n.chain|].header == pb.header;
    forall g: nat | g != h ensures Lookup(n'.store, BlockBody(g)) == Lookup(n.store, BlockBody(g)) {
      assert IsBook(BlockBody(g));
    }
  }

  lemma ConcludeBooked(cfg: Config, n: Node, m: Node, h: nat, pb: Pending, attesters: set<Id>, roster: Roster)
    requires m.chain == n.chain && m.journal == n.journal && JournalAtTip(n)
    requires SameBooks(m.store, n.store) && NoteOf(m) == NoteOf(n)
    requires pb.header.height == h == Next(n)
    ensures Booked(cfg, n, Forget(Conclude(cfg, m, h, pb, attesters, roster), h), NoteOf(n))
  {
    match pb.execution
    case Some(e) => AppendBooked(cfg, n, m, h, pb, e, attesters, roster);
    case None =>
      var changes := cfg.stage(m.store, pb.ops, h);
      var undo, after := Capture(m.store, changes.Keys), Apply(m.store, changes);
      UntouchedBooks(m.store, changes);
      if ExecutedRoot(cfg, m.store, pb.ops, h) == pb.header.stateRoot {
        AppendBooked(cfg, n, m.(store := after), h, pb, Execution(pb.header.stateRoot, undo), attesters, roster);
      } else {
        UndoRestores(m.store, changes);
      }
  }

  lemma FinalizeBooked(cfg: Config, n: Node, hist: seq<StateMap>, x: Hash, roster: Roster, n': Node)
    requires RootInjective(cfg) && Inv(cfg, n, hist) && x in CandidatesAt(n, Next(n))
    requires Finalizes(cfg, n, Next(n), x, roster, n')
    ensures Booked(cfg, n, n', NoteOf(n))
  {
    var h, pb := Next(n), CandidatesAt(n, Next(n))[x];
    var taken := TakeCandidate(n, h, x);
    var m :| ReadyFor(cfg, taken, pb, m) && n' == Forget(Conclude(cfg, m, h, pb, Voters(n, h, x), roster), h);
    assert pb.header.height == h by { assert Accounted(cfg, n, Tip(hist), x, pb); }
    assert m.chain == n.chain && m.journal == n.journal && SameBooks(m.store, n.store) && NoteOf(m) == NoteOf(n) by {
      if pb.execution.None? {
        TakePeerKeeps(cfg, n, hist, x);
        RestoreBooks(cfg, taken, hist, m);
      }
    }
    AtTip(cfg, n, hist);
    ConcludeBooked(cfg, n, m, h, pb, Voters(n, h, x), roster);
  }

  lemma BookedFrom(cfg: Config, n: Node, p: Node, n': Node, note: Option<Value>)
    requires Booked(cfg, p, n', note) && p.chain == n.chain && p.journal == n.journal && SameBooks(p.store, n.store)
    ensures Booked(cfg, n, n', note)
  {
    if Written(cfg, p, n') {
      var b := n'.chain[|n.chain|].header;
      forall g: nat | g != b.height ensures Lookup(n'.store, BlockBody(g)) == Lookup(n.store, BlockBody(g)) {
        assert IsBook(BlockBody(g));
      }
      assert Written(cfg, n, n');
    }
  }

  lemma FollowBooked(cfg: Config, n: Node, hist: seq<StateMap>, x: Hash, roster: Roster, n': Node)
    requires RootInjective(cfg) && Inv(cfg, n, hist) && Viable(n, Next(n), x) && Follows(cfg, n, Next(n), x, roster, n')
    ensures Booked(cfg, n, n', NoteOf(n))
  {
    if WouldMove(cfg, n, Next(n), x) {
      var m := MoveVote(cfg, n, Next(n), x);
      if Validators.HasQuorum(m.roster.validators, Voters(m, Next(n), x)) {
        SameCore(cfg, n, m, hist);
        FinalizeBooked(cfg, m, hist, x, roster, n');
        BookedFrom(cfg, n, m, n', NoteOf(n));
      }
    }
  }

  lemma ReevaluateBooked(cfg: Config, n: Node, hist: seq<StateMap>, h: nat, roster: Roster, n': Node)
    requires RootInjective(cfg) && Inv(cfg, n, hist) && Reevaluates(cfg, n, h, roster, n')
    ensures Booked(cfg, n, n', NoteOf(n))
  {
    if h != Next(n) || VotesAt(n, h) == map[] {
    } else if exists x :: Wins(n, h, x) {
      var x :| Wins(n, h, x) && Finalizes(cfg, n, h, x, roster, n');
      FinalizeBooked(cfg, n, hist, x, roster, n');
    } else if exists x :: Leads(cfg, n, h, x) {
      var x :| Leads(cfg, n, h, x) && Follows(cfg, n, h, x, roster, n');
      FollowBooked(cfg, n, hist, x, roster, n');
    }
  }

  lemma ProduceBooked(cfg: Config, n: Node, hist: seq<StateMap>, e: Event, n': Node) returns (m: Node)
    requires RootInjective(cfg) && Inv(cfg, n, hist)
    requires e.Produce? && Step(cfg, n, e, n') && !Overwrites(cfg, n, e.ops)
    ensures Restores(cfg, n, m) && Booked(cfg, n, n', Some(Vote(Next(n), cfg.hash(Proposal(cfg, m, e.ops)))))
  {
    m :| Restores(cfg, n, m) && Reevaluates(cfg, Propose(cfg, m, e.ops), Next(m), e.roster, n');
    var p := Propose(cfg, m, e.ops);
    ProposedInv(cfg, n, hist, m, e.ops);
    ProposedBooks(cfg, n, hist, m, e.ops);
    ReevaluateBooked(cfg, p, hist, Next(m), e.roster, n');
    BookedFrom(cfg, n, p, n', NoteOf(p));
  }

  lemma ProposedInv(cfg: Config, n: Node, hist: seq<StateMap>, m: Node, ops: Ops)
    requires RootInjective(cfg) && Inv(cfg, n, hist) && Restores(cfg, n, m) && !Overwrites(cfg, n, ops)
    ensures Inv(cfg, Propose(cfg, m, ops), hist)
  {
    RestoreExact(cfg, n, hist, m);
    RestoredSafe(cfg, n, hist, m, ops);
    ProposeKeeps(cfg, m, hist, ops);
  }

  lemma ProposedBooks(cfg: Config, n: Node, hist: seq<StateMap>, m: Node, ops: Ops)
    requires RootInjective(cfg) && Inv(cfg, n, hist) && Restores(cfg, n, m)
    ensures var p := Propose(cfg, m, ops);
      && p.chain == n.chain && p.journal == n.journal && SameBooks(p.store, n.store)
      && NoteOf(p) == Some(Vote(Next(n), cfg.hash(Proposal(cfg, m, ops))))
  {
    RestoreBooks(cfg, n, hist, m);
    OwnBooks(cfg, n, m, ops);
  }

  lemma OwnBooks(cfg: Config, n: Node, m: Node, ops: Ops)
    requires m == n.(store := m.store, candidates := m.candidates) && SameBooks(m.store, n.store)
    ensures var p := Propose(cfg, m, ops);
      && p.chain == n.chain && p.journal == n.journal && SameBooks(p.store, n.store)
      && NoteOf(p) == Some(Vote(Next(n), cfg.hash(Proposal(cfg, m, ops))))
  {
    ProposeBooks(cfg, m, ops);
  }

  lemma HeldBooked(cfg: Config, n: Node, hist: seq<StateMap>, header: Header, ops: Ops, roster: Roster, n': Node)
    requires RootInjective(cfg) && Inv(cfg, n, hist) && header.height == Next(n)
    requires header.parentHash == cfg.hash(n.chain[|n.chain| - 1].header)
    requires Reevaluates(cfg, Hold(cfg, n, header, ops), header.height, roster, n')
    ensures Booked(cfg, n, n', NoteOf(n))
  {
    HoldKeeps(cfg, n, hist, header, ops);
    ReevaluateBooked(cfg, Hold(cfg, n, header, ops), hist, header.height, roster, n');
    BookedFrom(cfg, n, Hold(cfg, n, header, ops), n', NoteOf(n));
  }

  lemma AttestBooked(cfg: Config, n: Node, hist: seq<StateMap>, e: Event, n': Node)
    requires RootInjective(cfg) && Inv(cfg, n, hist) && e.Attest? && Step(cfg, n, e, n')
    ensures Booked(cfg, n, n', NoteOf(n))
  {
    if VoteAdmitted(n, e.voter, e.height) {
      var p := RecordVote(n, e.voter, e.height, e.hash);
      SameCore(cfg, n, p, hist);
      ReevaluateBooked(cfg, p, hist, e.height, e.roster, n');
      BookedFrom(cfg, n, p, n', NoteOf(n));
    }
  }

  /** The last attestation after an event: for a block the node then produces, its vote for
      that block; otherwise what it was. */
  ghost predicate Noted(cfg: Config, n: Node, e: Event, note: Option<Value>) {
    if e.Produce?
    then exists m :: Restores(cfg, n, m) && note == Some(Vote(Next(n), cfg.hash(Proposal(cfg, m, e.ops))))
    else note == NoteOf(n)
  }

  lemma StepBooked(cfg: Config, n: Node, hist: seq<StateMap>, e: Event, n': Node)
    requires RootInjective(cfg) && Inv(cfg, n, hist) && Step(cfg, n, e, n')
    requires !(e.Produce? && Overwrites(cfg, n, e.ops))
    ensures Booked(cfg, n, n', NoteOf(n')) && Noted(cfg, n, e, NoteOf(n'))
  {
    match e
    case Produce(_, _) => var _ := ProduceBooked(cfg, n, hist, e, n');
    case Accept(header, _, ops, _, _, roster) =>
      Progress.AcceptCases(cfg, n, e, n');
      if n' != n { HeldBooked(cfg, n, hist, header, ops, roster, n'); }
    case Attest(_, _, _, _) => AttestBooked(cfg, n, hist, e, n');
    case Jailing(_) =>
  }

  // ---------- Whole runs ----------

  /** Every block from `from` on has its body stored, and the tip, if it is one of them, its
      height and epoch. */
  ghost predicate AllStored(cfg: Config, n: Node, from: nat) {
    && (forall j: nat :: from <= j < |n.chain| ==>
          Lookup(n.store, BlockBody(n.chain[j].header.height)) == Some(Body(cfg.hash(n.chain[j].header))))
    && (from < |n.chain| ==>
          var tip := n.chain[|n.chain| - 1].header; Lookup(n.store, ChainMeta) == Some(Meta(tip.height, tip.epoch)))
  }

  lemma StoredStep(cfg: Config, n: Node, n': Node, from: nat)
    requires Booked(cfg, n, n', NoteOf(n')) && AllStored(cfg, n, from) && from <= |n.chain|
    requires forall j: nat :: j < |n.chain| ==> n.chain[j].header.height < Next(n)
    ensures AllStored(cfg, n', from)
  {
    if n'.chain == n.chain {
      forall j: nat | from <= j < |n'.chain|
        ensures Lookup(n'.store, BlockBody(n'.chain[j].header.height)) == Some(Body(cfg.hash(n'.chain[j].header)))
      {
        assert IsBook(BlockBody(n.chain[j].header.height));
      }
      assert IsBook(ChainMeta);
    }
  }

  lemma HeightsBelow(cfg: Config, n: Node, hist: seq<StateMap>)
    requires Inv(cfg, n, hist)
    ensures forall j: nat :: j < |n.chain| ==> n.chain[j].header.height < Next(n)
  {
    forall j: nat | j < |n.chain| ensures n.chain[j].header.height < Next(n) {
      HeightsCount(cfg, n.chain, j, |n.chain| - 1);
    }
  }

  lemma RunStoredStep(cfg: Config, states: seq<Node>, events: seq<Event>, hist: seq<StateMap>, i: nat, from: nat)
    requires RootInjective(cfg) && SafeRun(cfg, states, events) && Inv(cfg, states[0], hist) && i < |events|
    requires AllStored(cfg, states[i], from) && from <= |states[i].chain|
    ensures AllStored(cfg, states[i + 1], from) && |states[i].chain| <= |states[i + 1].chain|
    ensures |states[i].journal| <= 256 ==>
      |states[i + 1].journal| == Min(256, |states[i].journal| + (|states[i + 1].chain| - |states[i].chain|))
  {
    RunBooked(cfg, states, events, hist, i);
    StoredStep(cfg, states[i], states[i + 1], from);
  }

  lemma RunBooked(cfg: Config, states: seq<Node>, events: seq<Event>, hist: seq<StateMap>, i: nat)
    requires RootInjective(cfg) && SafeRun(cfg, states, events) && Inv(cfg, states[0], hist) && i < |events|
    ensures Booked(cfg, states[i], states[i + 1], NoteOf(states[i + 1]))
    ensures Noted(cfg, states[i], events[i], NoteOf(states[i + 1]))
    ensures forall j: nat :: j < |states[i].chain| ==> states[i].chain[j].header.height < Next(states[i])
  {
    var h := RunInvariant(cfg, states, events, hist, i);
    StepBooked(cfg, states[i], h, events[i], states[i + 1]);
    HeightsBelow(cfg, states[i], h);
  }

  /** In every state of every live run the body of each block finalized since the start is
      stored, a restart reads the tip's height and epoch, and the journal holds an undo for
      each of those blocks, up to 256 of the newest. */
  lemma {:induction false} RunStored(cfg: Config, states: seq<Node>, events: seq<Event>, hist: seq<StateMap>, i: nat)
    requires RootInjective(cfg) && SafeRun(cfg, states, events) && Inv(cfg, states[0], hist) && i < |states|
    ensures AllStored(cfg, states[i], |states[0].chain|)
    ensures |states[0].chain| <= |states[i].chain|
    ensures |states[i].journal| == Min(256, |states[0].journal| + (|states[i].chain| - |states[0].chain|))
  {
    if i == 0 {
      AtTip(cfg, states[0], hist);
    } else {
      RunStored(cfg, states, events, hist, i - 1);
      RunStoredStep(cfg, states, events, hist, i - 1, |states[0].chain|);
    }
  }

  /** In every state of every live run the last attestation on record is the node's vote for
      the block it produced last, whatever it has received, counted or undone since. */
  lemma RunVoteStored(cfg: Config, states: seq<Node>, events: seq<Event>, hist: seq<StateMap>, k: nat, i: nat)
    returns (m: Node)
    requires RootInjective(cfg) && SafeRun(cfg, states, events) && Inv(cfg, states[0], hist)
    requires k < i < |states| && events[k].Produce? && forall j :: k < j < i ==> !events[j].Produce?
    ensures Restores(cfg, states[k], m)
    ensures NoteOf(states[i]) == Some(Vote(Next(states[k]), cfg.hash(Proposal(cfg, m, events[k].ops))))
  {
    RunNoted(cfg, states, events, hist, k);
    m := PickNoted(cfg, states[k], events[k], NoteOf(states[k + 1]));
    forall j | k < j < i ensures NoteOf(states[j + 1]) == NoteOf(states[j]) { RunNoted(cfg, states, events, hist, j); }
    NoteStands(states, k + 1, i);
  }

  lemma RunNoted(cfg: Config, states: seq<Node>, events: seq<Event>, hist: seq<StateMap>, i: nat)
    requires RootInjective(cfg) && SafeRun(cfg, states, events) && Inv(cfg, states[0], hist) && i < |events|
    ensures Noted(cfg, states[i], events[i], NoteOf(states[i + 1]))
  {
    RunBooked(cfg, states, events, hist, i);
  }

  lemma {:induction false} NoteStands(states: seq<Node>, k: nat, i: nat)
    requires k <= i < |states| && forall j :: k <= j < i ==> NoteOf(states[j + 1]) == NoteOf(states[j])
    ensures NoteOf(states[i]) == NoteOf(states[k])
  {
    if k < i { NoteStands(states, k, i - 1); }
  }

  lemma PickNoted(cfg: Config, n: Node, e: Event, note: Option<Value>) returns (m: Node)
    requires e.Produce? && Noted(cfg, n, e, note)
    ensures Restores(cfg, n, m) && note == Some(Vote(Next(n), cfg.hash(Proposal(cfg, m, e.ops))))
  {
    m :| Restores(cfg, n, m) && note == Some(Vote(Next(n), cfg.hash(Proposal(cfg, m, e.ops))));
  }
}
