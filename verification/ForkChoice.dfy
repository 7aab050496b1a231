/** Vote tally, quorum winner and deterministic leader: what they compute does not
    depend on the order in which a hash map is walked. */
module ForkChoice {
  import opened Types
  import opened Validators
  import opened Engine

  /** At most one hash can have a quorum of the current votes. */
  lemma WinnerUnique(n: Node, h: nat, x: Hash, y: Hash)
    requires Wins(n, h, x) && Wins(n, h, y)
    ensures x == y
  {
    if x != y { QuorumExclusive(n.roster.validators, Voters(n, h, x), Voters(n, h, y)); }
  }

  lemma BeatsTotal(cfg: Config, n: Node, h: nat, x: Hash, y: Hash)
    ensures x != y ==> (Beats(cfg, n, h, x, y) <==> !Beats(cfg, n, h, y, x))
    ensures !Beats(cfg, n, h, x, x)
  {
  }

  lemma BeatsTransitive(cfg: Config, n: Node, h: nat, x: Hash, y: Hash, z: Hash)
    requires Beats(cfg, n, h, x, y) && Beats(cfg, n, h, y, z)
    ensures Beats(cfg, n, h, x, z)
  {
  }

  /** `x` is in the set and beats everything else in it. */
  ghost predicate BestOf(cfg: Config, n: Node, h: nat, x: Hash, s: set<Hash>) {
    x in s && forall y :: y in s && y != x ==> Beats(cfg, n, h, x, y)
  }

  lemma BestExtends(cfg: Config, n: Node, h: nat, b: Hash, s: set<Hash>, x: Hash)
    requires BestOf(cfg, n, h, b, s) && x != b
    ensures BestOf(cfg, n, h, if Beats(cfg, n, h, x, b) then x else b, s + {x})
  {
  }

  /** Two nodes, or one node twice, cannot elect different leaders from one tally. */
  lemma LeaderUnique(cfg: Config, n: Node, h: nat, x: Hash, y: Hash)
    requires Leads(cfg, n, h, x) && Leads(cfg, n, h, y)
    ensures x == y
  {
  }

  /** The voters' stake first, then the proposer's place in the order, then the hash. */
  predicate AtLeastAsGood(cfg: Config, n: Node, h: nat, x: Hash, y: Hash)
    requires x in CandidatesAt(n, h) && y in CandidatesAt(n, h)
  {
    var vs, order := n.roster.validators, ProposerOrder(n.roster.validators, h, n.roster.seed, cfg.draw);
    var sx, sy := StakeOf(vs, VotersFor(VotesAt(n, h), x)), StakeOf(vs, VotersFor(VotesAt(n, h), y));
    var rx, ry := Rank(order, CandidatesAt(n, h)[x].header.proposer), Rank(order, CandidatesAt(n, h)[y].header.proposer);
    sx > sy || (sx == sy && (rx < ry || (rx == ry && x <= y)))
  }

  /** The leader is the hash, among those held, voted for and not marked invalid, with the
      most stake behind it; on a tie the one whose proposer comes first, then the smaller. */
  lemma LeadsIff(cfg: Config, n: Node, h: nat, x: Hash)
    ensures Leads(cfg, n, h, x) <==>
            && Viable(n, h, x) && x in CandidatesAt(n, h)
            && forall y :: y in CandidatesAt(n, h) && y in VotesAt(n, h).Values && y !in InvalidAt(n, h) ==>
                 AtLeastAsGood(cfg, n, h, x, y)
  {
    if Viable(n, h, x) {
      forall y | Viable(n, h, y) ensures AtLeastAsGood(cfg, n, h, x, y) <==> y == x || Beats(cfg, n, h, x, y) {
        GoodIff(cfg, n, h, x, y);
      }
      if Leads(cfg, n, h, x) {
        forall y | y in CandidatesAt(n, h) && y in VotesAt(n, h).Values && y !in InvalidAt(n, h)
          ensures AtLeastAsGood(cfg, n, h, x, y)
        {
          assert Viable(n, h, y);
        }
      }
    }
  }

  lemma GoodIff(cfg: Config, n: Node, h: nat, x: Hash, y: Hash)
    requires x in CandidatesAt(n, h) && y in CandidatesAt(n, h)
    ensures AtLeastAsGood(cfg, n, h, x, y) <==> y == x || Beats(cfg, n, h, x, y)
  {
  }

  /** `v2_tally`: the voters of each hash, from the current votes in any order. */
  method Tally(votes: map<Id, Hash>) returns (t: map<Hash, set<Id>>)
    ensures t.Keys == votes.Values
    ensures forall x :: x in t ==> t[x] == VotersFor(votes, x)
  {
    t := map[];
    var left := votes.Keys;
    while left != {}
      invariant left <= votes.Keys
      invariant forall x :: x in t <==> exists v :: v in votes && v !in left && votes[v] == x
      invariant forall x :: x in t ==> t[x] == set v | v in votes && v !in left && votes[v] == x
      decreases left
    {
      var v :| v in left;
      var x := votes[v];
      t := t[x := (if x in t then t[x] else {}) + {v}];
      left := left - {v};
    }
  }

  /** First half of `v2_reevaluate`: some hash to finalize, if there is one. */
  method FindWinner(n: Node, h: nat) returns (w: Option<Hash>)
    ensures w.Some? ==> Wins(n, h, w.value)
    ensures w.None? ==> forall x :: !Wins(n, h, x)
  {
    var t := Tally(VotesAt(n, h));
    var left := t.Keys;
    while left != {}
      invariant left <= t.Keys
      invariant forall x :: x in t && x !in left ==> !Wins(n, h, x)
      decreases left
    {
      var x :| x in left;
      if x !in InvalidAt(n, h) && HasQuorum(n.roster.validators, t[x]) && x in CandidatesAt(n, h) {
        return Some(x);
      }
      left := left - {x};
    }
    w := None;
  }

  ghost function ViableSet(n: Node, h: nat): set<Hash> {
    set x | x in VotesAt(n, h).Values && Viable(n, h, x)
  }

  /** `v2_leader`: the viable hash that beats every other one, whatever the order of
      the walk; none exactly when no hash is viable. */
  method FindLeader(cfg: Config, n: Node, h: nat) returns (best: Option<Hash>)
    ensures best.Some? ==> Leads(cfg, n, h, best.value)
    ensures best.None? <==> forall x :: !Viable(n, h, x)
  {
    var order := ProposerOrder(n.roster.validators, h, n.roster.seed, cfg.draw);
    var t := Tally(VotesAt(n, h));
    var left := t.Keys;
    best := None;
    var bestStake, bestRank := 0, 0;
    while left != {}
      invariant left <= t.Keys
      invariant best.None? ==> ViableSet(n, h) <= left
      invariant best.Some? ==> BestOf(cfg, n, h, best.value, ViableSet(n, h) - left)
      invariant best.Some? ==> bestStake == Weight(n, h, best.value) && bestRank == RankOf(cfg, n, h, best.value)
      decreases left
    {
      var x :| x in left;
      ghost var seen := ViableSet(n, h) - left;
      left := left - {x};
      if x in InvalidAt(n, h) || x !in CandidatesAt(n, h) {
        assert ViableSet(n, h) - left == seen;
      } else {
        assert ViableSet(n, h) - left == seen + {x};
        var stake := StakeOf(n.roster.validators, t[x]);
        var rank := Rank(order, CandidatesAt(n, h)[x].header.proposer);
        if best.Some? { BestExtends(cfg, n, h, best.value, seen, x); }
        if best.None? || stake > bestStake || (stake == bestStake && rank < bestRank)
           || (stake == bestStake && rank == bestRank && x < best.value)
        {
          best, bestStake, bestRank := Some(x), stake, rank;
        }
      }
    }
    assert ViableSet(n, h) - left == ViableSet(n, h);
    forall x ensures x in ViableSet(n, h) <==> Viable(n, h, x) { }
  }

  lemma {:induction false} BestExists(cfg: Config, n: Node, h: nat, s: set<Hash>)
    requires s != {}
    ensures exists x :: BestOf(cfg, n, h, x, s)
  {
    var x :| x in s;
    if s == {x} {
      assert BestOf(cfg, n, h, x, s);
    } else {
      BestExists(cfg, n, h, s - {x});
      var b :| BestOf(cfg, n, h, b, s - {x});
      BestExtends(cfg, n, h, b, s - {x}, x);
      assert s - {x} + {x} == s;
    }
  }

  /** There is a leader exactly when some hash is viable. */
  lemma LeaderExists(cfg: Config, n: Node, h: nat)
    ensures (exists x :: Leads(cfg, n, h, x)) <==> exists x :: Viable(n, h, x)
  {
    if x :| Viable(n, h, x) {
      assert x in ViableSet(n, h);
      BestExists(cfg, n, h, ViableSet(n, h));
      var b :| BestOf(cfg, n, h, b, ViableSet(n, h));
      assert Leads(cfg, n, h, b);
    }
  }

  // ---------- Two nodes ----------

  /** The nodes see the same votes and marks at a height and hold blocks of the same
      proposers under the same hashes. */
  ghost predicate SameView(a: Node, b: Node, h: nat) {
    && VotesAt(a, h) == VotesAt(b, h) && InvalidAt(a, h) == InvalidAt(b, h)
    && CandidatesAt(a, h).Keys == CandidatesAt(b, h).Keys
    && forall x :: x in CandidatesAt(a, h) ==>
         CandidatesAt(a, h)[x].header.proposer == CandidatesAt(b, h)[x].header.proposer
  }

  lemma SameWeight(a: Node, b: Node, h: nat, x: Hash)
    requires SameView(a, b, h) && Committed(a.roster.validators) == Committed(b.roster.validators)
    ensures Weight(a, h, x) == Weight(b, h, x) && (Viable(a, h, x) <==> Viable(b, h, x))
  {
    StakeIsCommitted(a.roster.validators, b.roster.validators, Voters(a, h, x));
  }

  /** With the same view and committed stakes, two nodes can follow different leaders only
      on a tie in stake, whatever each has jailed and however it stores the set. */
  lemma LeadersTie(cfg: Config, a: Node, b: Node, h: nat, x: Hash, y: Hash)
    requires SameView(a, b, h) && Committed(a.roster.validators) == Committed(b.roster.validators)
    requires Leads(cfg, a, h, x) && Leads(cfg, b, h, y)
    ensures Weight(a, h, x) == Weight(a, h, y)
  {
    SameWeight(a, b, h, x);
    SameWeight(a, b, h, y);
    if x != y { assert Beats(cfg, a, h, x, y) && Beats(cfg, b, h, y, x); }
  }

  /** With the same proposer order for the height as well, every node follows the same
      leader. */
  lemma SameViewSameLeader(cfg: Config, a: Node, b: Node, h: nat, x: Hash, y: Hash)
    requires SameView(a, b, h) && Committed(a.roster.validators) == Committed(b.roster.validators)
    requires ProposerOrder(a.roster.validators, h, a.roster.seed, cfg.draw)
             == ProposerOrder(b.roster.validators, h, b.roster.seed, cfg.draw)
    requires Leads(cfg, a, h, x) && Leads(cfg, b, h, y)
    ensures x == y
  {
    SameWeight(a, b, h, x);
    SameWeight(a, b, h, y);
    assert RankOf(cfg, a, h, x) == RankOf(cfg, b, h, x) && RankOf(cfg, a, h, y) == RankOf(cfg, b, h, y);
  }
}
