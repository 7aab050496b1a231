/** The consensus engine as an object updated in place. Each method is proved against
    the step relation it implements. */
module EngineClass {
  import opened Types
  import opened Storage
  import opened Validators
  import opened Engine
  import opened ForkChoice
  import opened Recovery
  import opened Rollback

  // ---------- Undoing in some order ----------

  lemma {:induction false} UndoAllAppend(s: Store, n: Node, order: seq<(nat, Hash)>, p: (nat, Hash))
    requires p in ExecutedAt(n) && forall q :: q in order ==> q in ExecutedAt(n)
    ensures UndoAll(s, n, order + [p]) ==
            Apply(UndoAll(s, n, order), n.candidates[p.0][p.1].execution.value.revert)
    decreases |order|
  {
    if order == [] {
      assert order + [p] == [p] && [p][1..] == [];
    } else {
      assert (order + [p])[1..] == order[1..] + [p];
      assert order[0] in ExecutedAt(n);
      UndoAllAppend(Apply(s, n.candidates[order[0].0][order[0].1].execution.value.revert), n, order[1..], p);
    }
  }

  /** One of the entries with the greatest height. */
  method PickHighest(ps: set<(nat, Hash)>) returns (p: (nat, Hash))
    requires ps != {}
    ensures p in ps && forall q :: q in ps ==> q.0 <= p.0
  {
    p :| p in ps;
    var left := ps - {p};
    while left != {}
      invariant left <= ps && p in ps
      invariant forall q :: q in ps && q !in left ==> q.0 <= p.0
      decreases left
    {
      var q :| q in left;
      if q.0 > p.0 { p := q; }
      left := left - {q};
    }
  }

  /** `done` lists entries of `all` without repetition, heights never increasing, and
      nothing left is higher. */
  ghost predicate Partial(all: set<(nat, Hash)>, done: seq<(nat, Hash)>, left: set<(nat, Hash)>) {
    && left <= all
    && (forall p :: p in done <==> p in all - left)
    && |done| == |all| - |left|
    && (forall i, j :: 0 <= i < j < |done| ==> done[i].0 >= done[j].0)
    && (forall i, q :: 0 <= i < |done| && q in left ==> done[i].0 >= q.0)
  }

  lemma PartialStep(all: set<(nat, Hash)>, done: seq<(nat, Hash)>, left: set<(nat, Hash)>, p: (nat, Hash))
    requires Partial(all, done, left) && p in left && forall q :: q in left ==> q.0 <= p.0
    ensures Partial(all, done + [p], left - {p})
  {
  }

  lemma Highest(ps: set<(nat, Hash)>) returns (p: (nat, Hash))
    requires ps != {}
    ensures p in ps && forall q :: q in ps ==> q.0 <= p.0
  {
    var heights := set q | q in ps :: q.0;
    var any :| any in ps;
    assert any.0 in heights;
    var top := Newest(heights);
    p :| p in ps && p.0 == top;
    forall q | q in ps ensures q.0 <= p.0 { assert q.0 in heights; }
  }

  lemma {:induction false} AnyOrder(n: Node, done: seq<(nat, Hash)>, left: set<(nat, Hash)>) returns (order: seq<(nat, Hash)>)
    requires Partial(ExecutedAt(n), done, left)
    ensures UndoOrder(n, order)
    decreases left
  {
    if left == {} {
      order := done;
    } else {
      var p := Highest(left);
      PartialStep(ExecutedAt(n), done, left, p);
      order := AnyOrder(n, done + [p], left - {p});
    }
  }

  lemma FinalizesBy(cfg: Config, n: Node, h: nat, x: Hash, roster: Roster, k: Node)
    requires x in CandidatesAt(n, h) && ReadyFor(cfg, TakeCandidate(n, h, x), CandidatesAt(n, h)[x], k)
    ensures Finalizes(cfg, n, h, x, roster, Forget(Conclude(cfg, k, h, CandidatesAt(n, h)[x], Voters(n, h, x), roster), h))
  {
  }

  /** Applies the undo of every executed candidate, highest first. */
  method UndoExecuted(n: Node) returns (s: Store, ghost order: seq<(nat, Hash)>)
    ensures UndoOrder(n, order) && s == UndoAll(n.store, n, order)
  {
    s := n.store;
    var left := ExecutedAt(n);
    order := [];
    while left != {}
      invariant Partial(ExecutedAt(n), order, left)
      invariant s == UndoAll(n.store, n, order)
      decreases left
    {
      var p := PickHighest(left);
      UndoAllAppend(n.store, n, order, p);
      PartialStep(ExecutedAt(n), order, left, p);
      s := ApplyBatch(s, n.candidates[p.0][p.1].execution.value.revert);
      order := order + [p];
      left := left - {p};
    }
  }

  // ---------- The engine ----------

  class ConsensusEngine {
    const cfg: Config
    const journal: RollbackJournal
    var store: Store
    var chain: seq<FinalizedBlock>
    var candidates: map<nat, map<Hash, Pending>>
    var votes: map<nat, map<Id, Hash>>
    var revotes: seq<(nat, Hash)>
    var invalid: map<nat, set<Hash>>
    var roster: Roster
    var needsResync: bool
    var resyncing: bool

    ghost predicate Valid() {
      journal.cap == JOURNAL_CAP
    }

    function View(): Node
      reads this, journal
    {
      Node(store, chain, candidates, votes, revotes, invalid, journal.entries, roster, needsResync, resyncing)
    }

    /** Boot: repair the store from its durable records, then stand on the stored height. */
    constructor (cfg: Config, s: Store, roster: Roster)
      ensures Valid() && fresh(journal) && this.cfg == cfg
      ensures View() == BootNode(cfg, s, roster)
    {
      var (h, epoch) := StoredTip(s);
      var repaired, applied := ApplyDurableReverts(s, h);
      var root := RootOf(cfg, repaired);
      this.cfg := cfg;
      journal := new RollbackJournal(JOURNAL_CAP);
      store := repaired;
      chain := if h == 0 then [] else [FinalizedBlock(Header(h, epoch, 0, root, 0, 0, 0, 0), root, {}, [])];
      candidates, votes, revotes, invalid := map[], map[], [], map[];
      this.roster, needsResync, resyncing := roster, false, false;
    }

    method Reconcile()
      requires Valid() && chain != []
      modifies this
      ensures View() == Reconciled(cfg, old(View()))
    {
      var tipRoot := chain[|chain| - 1].resultRoot;
      if RootOf(cfg, store) != tipRoot {
        var repaired, applied := ApplyDurableReverts(store, Height(View()));
        store := repaired;
        if !(applied && RootOf(cfg, store) == tipRoot) { needsResync := true; }
      }
    }

    /** `restore_store_to_finalized_tip` */
    method Restore()
      requires Valid()
      modifies this
      ensures Restores(cfg, old(View()), View())
    {
      ghost var n := View();
      if chain == [] || RootOf(cfg, store) == chain[|chain| - 1].resultRoot {
        ghost var any := AnyOrder(n, [], ExecutedAt(n));
        assert View() == RestoreIn(cfg, n, any);
        return;
      }
      var s, order := UndoExecuted(View());
      candidates := DropExecuted(View());
      store := s;
      Reconcile();
      assert View() == RestoreIn(cfg, n, order);
    }

    /** The tail of `finalize_pending_block`: chain, journal and bookkeeping keys. */
    method AppendBlock(h: nat, pb: Pending, e: Execution, attesters: set<Id>, roster': Roster)
      requires Valid()
      modifies this, journal
      ensures View() == Append(cfg, old(View()), h, pb, e, attesters, roster')
    {
      chain := chain + [FinalizedBlock(pb.header, e.root, attesters, pb.ops)];
      journal.Add(h, e.revert);
      store := store - {EagerRevert(h)};
      store := store[BlockBody(pb.header.height) := Body(cfg.hash(pb.header))];
      store := store[ChainMeta := Meta(pb.header.height, pb.header.epoch)];
      invalid := Above(invalid, h);
      roster := roster';
    }

    /** `execute_block_checked`: commit only if the claimed root is reproduced, else undo. */
    method ExecuteChecked(ops: Ops, h: nat, claimed: Hash) returns (r: Option<Execution>)
      requires Valid()
      modifies this`store
      ensures r.Some? <==> ExecutedRoot(cfg, old(store), ops, h) == claimed
      ensures r.Some? ==> store == Apply(old(store), cfg.stage(old(store), ops, h))
      ensures r.Some? ==> r.value == Execution(claimed, Capture(old(store), cfg.stage(old(store), ops, h).Keys))
      ensures r.None? ==> store == old(store)
    {
      var changes := cfg.stage(store, ops, h);
      var undo := Capture(store, changes.Keys);
      UndoRestores(store, changes);
      store := ApplyBatch(store, changes);
      var root := RootOf(cfg, store);
      if root == claimed { return Some(Execution(root, undo)); }
      store := ApplyBatch(store, undo);
      r := None;
    }

    /** `finalize_pending_block` */
    method FinalizePending(h: nat, pb: Pending, attesters: set<Id>, roster': Roster)
      requires Valid()
      modifies this, journal
      ensures exists k :: ReadyFor(cfg, old(View()), pb, k) && View() == Conclude(cfg, k, h, pb, attesters, roster')
    {
      ghost var n := View();
      match pb.execution {
        case Some(e) =>
          AppendBlock(h, pb, e, attesters, roster');
          assert ReadyFor(cfg, n, pb, n);
        case None =>
          Restore();
          ghost var k := View();
          assert ReadyFor(cfg, n, pb, k);
          FinalizePeer(h, pb, attesters, roster');
      }
    }

    method FinalizePeer(h: nat, pb: Pending, attesters: set<Id>, roster': Roster)
      requires Valid() && pb.execution.None?
      modifies this, journal
      ensures View() == Conclude(cfg, old(View()), h, pb, attesters, roster')
    {
      ghost var k := View();
      var r := ExecuteChecked(pb.ops, h, pb.header.stateRoot);
      if r.Some? {
        assert View() == k.(store := Apply(k.store, cfg.stage(k.store, pb.ops, h)));
        AppendBlock(h, pb, r.value, attesters, roster');
      } else {
        assert View() == k;
        UndoRestores(k.store, cfg.stage(k.store, pb.ops, h));
        MarkInvalid(h, cfg.hash(pb.header));
      }
    }

    method MarkInvalid(h: nat, bad: Hash)
      modifies this
      ensures View() == Reject(cfg, old(View()), h, bad)
    {
      invalid := invalid[h := InvalidAt(View(), h) + {bad}];
      if h in votes && cfg.self in votes[h] && votes[h][cfg.self] == bad {
        votes := votes[h := votes[h] - {cfg.self}];
      }
    }

    /** Drops votes and candidates at or below a height. */
    method Drop(h: nat)
      modifies this
      ensures View() == Forget(old(View()), h)
    {
      candidates := Above(candidates, h);
      votes := Above(votes, h);
    }

    /** `v2_finalize` */
    method Finalize(h: nat, x: Hash, roster': Roster)
      requires Valid()
      modifies this, journal
      ensures Finalizes(cfg, old(View()), h, x, roster', View())
    {
      if h !in candidates || x !in candidates[h] { return; }
      var pb := candidates[h][x];
      var attesters := VotersFor(VotesAt(View(), h), x);
      candidates := candidates[h := candidates[h] - {x}];
      assert View() == TakeCandidate(old(View()), h, x);
      FinalizePending(h, pb, attesters, roster');
      ghost var k :| ReadyFor(cfg, TakeCandidate(old(View()), h, x), pb, k)
                     && View() == Conclude(cfg, k, h, pb, attesters, roster');
      FinalizesBy(cfg, old(View()), h, x, roster', k);
      Drop(h);
    }

    /** Second half of `v2_reevaluate`: move our vote to the leader, and finalize it if
        that completes its quorum. */
    method Follow(h: nat, x: Hash, roster': Roster)
      requires Valid()
      modifies this, journal
      ensures Follows(cfg, old(View()), h, x, roster', View())
    {
      if !IsActive(roster.validators, cfg.self) { return; }
      var mine: map<Id, Hash> := VotesAt(View(), h);
      if cfg.self in mine && mine[cfg.self] == x { return; }
      votes := votes[h := mine[cfg.self := x]];
      revotes := revotes + [(h, x)];
      assert View() == MoveVote(cfg, old(View()), h, x);
      var t := Tally(VotesAt(View(), h));
      var voters := if x in t then t[x] else {};
      assert voters == Voters(View(), h, x) by { assert cfg.self in VotesAt(View(), h); }
      if HasQuorum(roster.validators, voters) { Finalize(h, x, roster'); }
    }

    /** `v2_reevaluate` */
    method Reevaluate(h: nat, roster': Roster)
      requires Valid()
      modifies this, journal
      ensures Reevaluates(cfg, old(View()), h, roster', View())
    {
      if h != Next(View()) || VotesAt(View(), h) == map[] { return; }
      var w := FindWinner(View(), h);
      if w.Some? {
        Finalize(h, w.value, roster');
        return;
      }
      var leader := FindLeader(cfg, View(), h);
      if leader.Some? {
        Follow(h, leader.value, roster');
      } else {
        LeaderExists(cfg, View(), h);
      }
    }

    /** `execute_block_journaled_durable`: the writes and their undo record in one batch. */
    method CommitEagerly(ops: Ops, h: nat) returns (undo: Delta)
      requires Valid()
      modifies this`store
      ensures store == EagerCommit(old(store), h, cfg.stage(old(store), ops, h))
      ensures undo == EagerUndo(old(store), h, cfg.stage(old(store), ops, h))
    {
      var changes := cfg.stage(store, ops, h);
      undo := EagerUndo(store, h, changes);
      store := ApplyBatch(store, changes[EagerRevert(h) := Some(Undo(undo))]);
    }

    /** Execute eagerly with a durable undo record, keep the candidate, vote for it. */
    method ProposeBlock(ops: Ops)
      requires Valid()
      modifies this
      ensures View() == Propose(cfg, old(View()), ops)
    {
      var header := Proposal(cfg, View(), ops);
      var h := Next(View());
      var undo := CommitEagerly(ops, h);
      Register(h, cfg.hash(header), Pending(header, ops, Some(Execution(RootOf(cfg, store), undo))));
    }

    /** Keeps an own candidate, stores our attestation and queues our vote. */
    method Register(h: nat, x: Hash, own: Pending)
      modifies this
      ensures View() == old(View()).(
                store := old(store)[LastAttestation := Vote(h, x)],
                candidates := old(candidates)[h := CandidatesAt(old(View()), h)[x := own]],
                votes := old(votes)[h := VotesAt(old(View()), h)[cfg.self := x]],
                revotes := old(revotes) + [(h, x)])
    {
      candidates := candidates[h := CandidatesAt(View(), h)[x := own]];
      store := store[LastAttestation := Vote(h, x)];
      votes := votes[h := VotesAt(View(), h)[cfg.self := x]];
      revotes := revotes + [(h, x)];
    }

    /** `produce_block` */
    method ProduceBlock(ops: Ops, roster': Roster)
      requires Valid()
      modifies this, journal
      ensures Step(cfg, old(View()), Produce(ops, roster'), View())
    {
      Restore();
      ghost var m := View();
      ProposeBlock(ops);
      Reevaluate(Next(View()), roster');
      assert Next(Propose(cfg, m, ops)) == Next(m);
    }

    /** `accept_block`: reports whether the block passed every condition. */
    method AcceptBlock(header: Header, signature: Bytes, ops: Ops, now: nat, permitted: bool, roster': Roster)
      returns (ok: bool)
      requires Valid()
      modifies this, journal
      ensures ok <==> Acceptable(cfg, old(View()), header, signature, now, permitted)
      ensures Step(cfg, old(View()), Accept(header, signature, ops, now, permitted, roster'), View())
    {
      if !Acceptable(cfg, View(), header, signature, now, permitted) { return false; }
      var x, held := cfg.hash(header), CandidatesAt(View(), header.height);
      candidates := candidates[header.height := if x in held then held else held[x := Pending(header, ops, None)]];
      assert View() == Hold(cfg, old(View()), header, ops);
      Reevaluate(header.height, roster');
      ok := true;
    }

    /** `accept_attestation`: reports whether the vote finalized a block. */
    method AcceptAttestation(voter: Id, h: nat, x: Hash, roster': Roster) returns (finalized: bool)
      requires Valid()
      modifies this, journal
      ensures Step(cfg, old(View()), Attest(voter, h, x, roster'), View())
      ensures finalized <==> VoteAdmitted(old(View()), voter, h) && Height(View()) > Height(old(View()))
    {
      if !IsActive(roster.validators, voter) { return false; }
      var before := Height(View());
      if h <= before || h > before + VOTE_LOOKAHEAD { return false; }
      votes := votes[h := VotesAt(View(), h)[voter := x]];
      assert View() == RecordVote(old(View()), voter, h, x);
      Reevaluate(h, roster');
      finalized := Height(View()) > before;
    }

    /** Applies the undo entries above a height, newest first. */
    method Rewind(target: nat)
      modifies this`store
      ensures store == Rewound(old(store), journal.entries, target)
    {
      var todo := journal.entries;
      while todo != [] && todo[|todo| - 1].height > target
        invariant Rewound(store, todo, target) == Rewound(old(store), journal.entries, target)
        decreases |todo|
      {
        store := ApplyBatch(store, todo[|todo| - 1].revert);
        todo := todo[..|todo| - 1];
      }
    }

    /** `rollback_to_height` */
    method RollbackTo(target: nat, expected: Hash) returns (ok: bool)
      requires Valid()
      modifies this, journal
      ensures (View(), ok) == RolledBack(cfg, old(View()), target, expected)
    {
      if target >= Height(View()) { return false; }
      var least := journal.MinRollbackTarget();
      if least.None? || target < least.value { return false; }
      Rewind(target);
      if RootOf(cfg, store) != expected { return false; }
      chain := ChainUpTo(chain, target);
      journal.TruncateTo(target);
      store := store[ChainMeta := Meta(target, target / EPOCH_LENGTH)];
      ok := true;
    }
  }
}
