/** Where recorded votes come from, and which votes a node records. */
module Ballots {
  import opened Types
  import opened Validators
  import opened Engine
  import opened EngineRuns
  import Safety
  import Origins

  datatype Cast = Cast(voter: Id, height: nat, hash: Hash)

  /** The event delivered this vote of an active validator, for one of the next 64 heights. */
  predicate Delivers(n: Node, e: Event, c: Cast) {
    && e.Attest? && Cast(e.voter, e.height, e.hash) == c
    && IsActive(n.roster.validators, c.voter) && Height(n) < c.height <= Height(n) + 64
  }

  /** Every recorded vote is the node's own or was cast. */
  ghost predicate AllCast(self: Id, votes: Safety.Votes, casts: iset<Cast>) {
    forall h, v :: h in votes && v in votes[h] ==> v == self || Cast(v, h, votes[h][v]) in casts
  }

  lemma AccountedCast(self: Id, votes: Safety.Votes, revotes: seq<(nat, Hash)>, votes': Safety.Votes, casts: iset<Cast>)
    requires AllCast(self, votes, casts) && Safety.VotesAccounted(self, votes, revotes, votes')
    ensures AllCast(self, votes', casts)
  {
    forall h, v | h in votes' && v in votes'[h] ensures v == self || Cast(v, h, votes'[h][v]) in casts {
      assert Safety.Accounts(self, votes, revotes, v, h, votes'[h][v]);
    }
  }

  lemma ReevaluateCast(cfg: Config, n: Node, h: nat, roster: Roster, n': Node, casts: iset<Cast>)
    requires AllCast(cfg.self, n.votes, casts) && Reevaluates(cfg, n, h, roster, n')
    ensures AllCast(cfg.self, n'.votes, casts)
  {
    Safety.ReevaluateFrame(cfg, n, h, roster, n');
    AccountedCast(cfg.self, n.votes, n'.revotes, n'.votes, casts);
  }

  lemma ProduceCast(cfg: Config, n: Node, e: Event, n': Node, casts: iset<Cast>)
    requires AllCast(cfg.self, n.votes, casts) && e.Produce? && Step(cfg, n, e, n')
    ensures AllCast(cfg.self, n'.votes, casts)
  {
    var m :| Restores(cfg, n, m) && Reevaluates(cfg, Propose(cfg, m, e.ops), Next(m), e.roster, n');
    ProposeCast(cfg, m, e.ops, casts);
    ReevaluateCast(cfg, Propose(cfg, m, e.ops), Next(m), e.roster, n', casts);
  }

  lemma ProposeCast(cfg: Config, m: Node, ops: Ops, casts: iset<Cast>)
    requires AllCast(cfg.self, m.votes, casts)
    ensures AllCast(cfg.self, Propose(cfg, m, ops).votes, casts)
  {
  }

  lemma RecordCast(self: Id, n: Node, voter: Id, h: nat, x: Hash, casts: iset<Cast>)
    requires AllCast(self, n.votes, casts) && Cast(voter, h, x) in casts
    ensures AllCast(self, RecordVote(n, voter, h, x).votes, casts)
  {
  }

  /** An attestation is ignored, or recorded and weighed. */
  lemma AttestCases(cfg: Config, n: Node, e: Event, n': Node)
    requires e.Attest? && Step(cfg, n, e, n')
    ensures if Delivers(n, e, Cast(e.voter, e.height, e.hash))
            then Reevaluates(cfg, RecordVote(n, e.voter, e.height, e.hash), e.height, e.roster, n')
            else n' == n
  {
  }

  lemma AttestCast(cfg: Config, n: Node, e: Event, n': Node, casts: iset<Cast>)
    requires AllCast(cfg.self, n.votes, casts) && e.Attest? && Step(cfg, n, e, n')
    requires forall c :: Delivers(n, e, c) ==> c in casts
    ensures AllCast(cfg.self, n'.votes, casts)
  {
    AttestCases(cfg, n, e, n');
    if n' != n {
      RecordCast(cfg.self, n, e.voter, e.height, e.hash, casts);
      ReevaluateCast(cfg, RecordVote(n, e.voter, e.height, e.hash), e.height, e.roster, n', casts);
    }
  }

  lemma AcceptCast(cfg: Config, n: Node, e: Event, n': Node, casts: iset<Cast>)
    requires AllCast(cfg.self, n.votes, casts) && e.Accept? && Step(cfg, n, e, n')
    ensures AllCast(cfg.self, n'.votes, casts)
  {
    Origins.AcceptReceived(cfg, n, e, n');
    if n' != n { ReevaluateCast(cfg, Hold(cfg, n, e.header, e.ops), e.header.height, e.roster, n', casts); }
  }

  lemma StepCast(cfg: Config, n: Node, e: Event, n': Node, casts: iset<Cast>)
    requires AllCast(cfg.self, n.votes, casts) && (forall c :: Delivers(n, e, c) ==> c in casts) && Step(cfg, n, e, n')
    ensures AllCast(cfg.self, n'.votes, casts)
  {
    match e
    case Produce(_, _) => ProduceCast(cfg, n, e, n', casts);
    case Accept(_, _, _, _, _, _) => AcceptCast(cfg, n, e, n', casts);
    case Attest(_, _, _, _) => AttestCast(cfg, n, e, n', casts);
    case Jailing(_) =>
  }

  ghost predicate Recorded(votes: Safety.Votes, c: Cast) {
    c.height in votes && c.voter in votes[c.height] && votes[c.height][c.voter] == c.hash
  }

  /** Recorded at the start, or delivered by one of the first `i` events. */
  ghost predicate Source(states: seq<Node>, events: seq<Event>, i: nat, c: Cast)
    requires |states| == |events| + 1 && i <= |events|
  {
    Recorded(states[0].votes, c) || exists k :: 0 <= k < i && Delivers(states[k], events[k], c)
  }

  ghost function CastBy(states: seq<Node>, events: seq<Event>, i: nat): iset<Cast>
    requires |states| == |events| + 1 && i <= |events|
  {
    iset c: Cast | Source(states, events, i, c)
  }

  lemma CastGrows(states: seq<Node>, events: seq<Event>, i: nat)
    requires |states| == |events| + 1 && i < |events|
    ensures CastBy(states, events, i) <= CastBy(states, events, i + 1)
    ensures forall c :: Delivers(states[i], events[i], c) ==> c in CastBy(states, events, i + 1)
  {
  }

  lemma {:induction false} RunCast(cfg: Config, states: seq<Node>, events: seq<Event>, i: nat)
    requires Run(cfg, states, events) && i < |states|
    ensures AllCast(cfg.self, states[i].votes, CastBy(states, events, i))
  {
    if i == 0 {
      StartCast(cfg.self, states, events);
    } else {
      RunCast(cfg, states, events, i - 1);
      CastGrows(states, events, i - 1);
      CastWider(cfg.self, states[i - 1].votes, CastBy(states, events, i - 1), CastBy(states, events, i));
      StepCastAt(cfg, states, events, i - 1, CastBy(states, events, i));
    }
  }

  lemma StartCast(self: Id, states: seq<Node>, events: seq<Event>)
    requires |states| == |events| + 1
    ensures AllCast(self, states[0].votes, CastBy(states, events, 0))
  {
    var votes := states[0].votes;
    forall h, v | h in votes && v in votes[h] ensures Cast(v, h, votes[h][v]) in CastBy(states, events, 0) {
      assert Recorded(votes, Cast(v, h, votes[h][v]));
    }
  }

  lemma CastWider(self: Id, votes: Safety.Votes, a: iset<Cast>, b: iset<Cast>)
    requires AllCast(self, votes, a) && a <= b
    ensures AllCast(self, votes, b)
  {
  }

  lemma StepCastAt(cfg: Config, states: seq<Node>, events: seq<Event>, i: nat, casts: iset<Cast>)
    requires Run(cfg, states, events) && i < |events|
    requires AllCast(cfg.self, states[i].votes, casts) && forall c :: Delivers(states[i], events[i], c) ==> c in casts
    ensures AllCast(cfg.self, states[i + 1].votes, casts)
  {
    StepCast(cfg, states[i], events[i], states[i + 1], casts);
  }

  /** In every state of every run, each recorded vote is the node's own, was recorded at the
      start, or came from a validator that was active then, at most 64 heights ahead. */
  lemma VoteOrigin(cfg: Config, states: seq<Node>, events: seq<Event>, i: nat, h: nat, v: Id)
    requires Run(cfg, states, events) && i < |states| && h in states[i].votes && v in states[i].votes[h]
    ensures v == cfg.self || Source(states, events, i, Cast(v, h, states[i].votes[h][v]))
  {
    RunCast(cfg, states, events, i);
  }

  /** A vote of an active validator for a later height within reach is recorded, and
      changes nothing else. */
  lemma EarlyVoteKept(cfg: Config, n: Node, voter: Id, h: nat, x: Hash, roster: Roster, n': Node)
    requires IsActive(n.roster.validators, voter) && Height(n) + 1 < h <= Height(n) + 64
    requires Step(cfg, n, Attest(voter, h, x, roster), n')
    ensures n' == n.(votes := n'.votes)
    ensures forall g :: VotesAt(n', g) == if g == h then VotesAt(n, h)[voter := x] else VotesAt(n, g)
  {
    AttestCases(cfg, n, Attest(voter, h, x, roster), n');
    assert Delivers(n, Attest(voter, h, x, roster), Cast(voter, h, x));
    OffHeight(cfg, RecordVote(n, voter, h, x), h, roster, n');
  }

  lemma OffHeight(cfg: Config, n: Node, h: nat, roster: Roster, n': Node)
    requires h != Next(n) && Reevaluates(cfg, n, h, roster, n')
    ensures n' == n
  {
  }
}
