/** The validator set: stake sums, quorum, and stake-weighted proposer choice. */
module Validators {
  import opened Types
  import opened Sorting

  datatype Status = Active | Jailed | Exiting

  datatype ValidatorInfo = ValidatorInfo(id: Id, stake: nat, status: Status, missedBlocks: nat)

  // ---------- Committed stake and quorum ----------

  function TotalStake(vs: seq<ValidatorInfo>): nat {
    if vs == [] then 0 else vs[0].stake + TotalStake(vs[1..])
  }

  /** Stake of the listed validators, each entry of the set counted once. */
  function StakeOf(vs: seq<ValidatorInfo>, ids: set<Id>): nat {
    if vs == [] then 0
    else (if vs[0].id in ids then vs[0].stake else 0) + StakeOf(vs[1..], ids)
  }

  predicate HasQuorum(vs: seq<ValidatorInfo>, attesters: set<Id>) {
    var total := TotalStake(vs);
    total != 0 && StakeOf(vs, attesters) * 3 > total * 2
  }

  /** What a validator set commits on chain: identities and stakes, without the order,
      the status and the missed-block counter that each node keeps for itself. */
  function Committed(vs: seq<ValidatorInfo>): multiset<(Id, nat)> {
    if vs == [] then multiset{} else multiset{(vs[0].id, vs[0].stake)} + Committed(vs[1..])
  }

  /** Taking out one entry takes its pair out of what is committed, and its stake out of
      every sum it is part of. */
  lemma {:induction false} TakeOut(vs: seq<ValidatorInfo>, i: nat, a: set<Id>)
    requires i < |vs|
    ensures var rest := vs[..i] + vs[i + 1..];
      && Committed(vs) == Committed(rest) + multiset{(vs[i].id, vs[i].stake)}
      && TotalStake(vs) == TotalStake(rest) + vs[i].stake
      && StakeOf(vs, a) == StakeOf(rest, a) + if vs[i].id in a then vs[i].stake else 0
  {
    var rest := vs[..i] + vs[i + 1..];
    if i == 0 {
      assert rest == vs[1..];
    } else {
      TakeOut(vs[1..], i - 1, a);
      assert rest[0] == vs[0] && rest[1..] == vs[1..][..i - 1] + vs[1..][i..];
    }
  }

  lemma {:induction false} CommittedSize(vs: seq<ValidatorInfo>)
    ensures |Committed(vs)| == |vs|
  {
    if vs != [] { CommittedSize(vs[1..]); }
  }

  lemma Cancel(a: multiset<(Id, nat)>, b: multiset<(Id, nat)>, x: (Id, nat))
    requires multiset{x} + a == b + multiset{x}
    ensures a == b
  {
    assert a == (multiset{x} + a) - multiset{x} && b == (b + multiset{x}) - multiset{x};
  }

  /** Whatever is committed is somewhere in the set. */
  lemma {:induction false} CommittedAt(vs: seq<ValidatorInfo>, id: Id, stake: nat) returns (i: nat)
    requires (id, stake) in Committed(vs)
    ensures i < |vs| && vs[i].id == id && vs[i].stake == stake
  {
    if (vs[0].id, vs[0].stake) == (id, stake) {
      i := 0;
    } else {
      var j := CommittedAt(vs[1..], id, stake);
      i := j + 1;
    }
  }

  lemma {:induction false} StakeModular(vs: seq<ValidatorInfo>, a: set<Id>, b: set<Id>)
    ensures StakeOf(vs, a) + StakeOf(vs, b) == StakeOf(vs, a + b) + StakeOf(vs, a * b)
  {
    if vs != [] { StakeModular(vs[1..], a, b); }
  }

  lemma {:induction false} StakeAtMostTotal(vs: seq<ValidatorInfo>, a: set<Id>)
    ensures StakeOf(vs, a) <= TotalStake(vs)
  {
    if vs != [] { StakeAtMostTotal(vs[1..], a); }
  }

  lemma {:induction false} StakeMonotone(vs: seq<ValidatorInfo>, a: set<Id>, b: set<Id>)
    requires a <= b
    ensures StakeOf(vs, a) <= StakeOf(vs, b)
  {
    if vs != [] { StakeMonotone(vs[1..], a, b); }
  }

  /** Stake sums see only the committed part: neither local jailing nor the order in which
      a node stores its validators moves either side of the quorum inequality. */
  lemma {:induction false} StakeIsCommitted(vs: seq<ValidatorInfo>, ws: seq<ValidatorInfo>, a: set<Id>)
    requires Committed(vs) == Committed(ws)
    ensures TotalStake(vs) == TotalStake(ws)
    ensures StakeOf(vs, a) == StakeOf(ws, a)
  {
    if vs == [] {
      CommittedSize(ws);
    } else {
      var head := vs[0];
      assert (head.id, head.stake) in Committed(vs);
      var i := CommittedAt(ws, head.id, head.stake);
      var rest := ws[..i] + ws[i + 1..];
      TakeOut(ws, i, a);
      Cancel(Committed(vs[1..]), Committed(rest), (head.id, head.stake));
      StakeIsCommitted(vs[1..], rest, a);
    }
  }

  /** Two quorums over the same committed stakes share more than a third of it,
      whatever either node has jailed and however it stores the set. */
  lemma QuorumsIntersect(vs: seq<ValidatorInfo>, ws: seq<ValidatorInfo>, a: set<Id>, b: set<Id>)
    requires Committed(vs) == Committed(ws)
    requires HasQuorum(vs, a) && HasQuorum(ws, b)
    ensures StakeOf(vs, a * b) * 3 > TotalStake(vs)
  {
    StakeIsCommitted(vs, ws, b);
    StakeModular(vs, a, b);
    StakeAtMostTotal(vs, a + b);
  }

  /** Stake of everyone who is not listed. */
  function MissingStake(vs: seq<ValidatorInfo>, a: set<Id>): nat {
    if vs == [] then 0 else (if vs[0].id in a then 0 else vs[0].stake) + MissingStake(vs[1..], a)
  }

  lemma {:induction false} StakeSplits(vs: seq<ValidatorInfo>, a: set<Id>)
    ensures StakeOf(vs, a) + MissingStake(vs, a) == TotalStake(vs)
  {
    if vs != [] { StakeSplits(vs[1..], a); }
  }

  /** Attesters are a quorum exactly when less than a third of the stake is missing: a third
      that stays silent blocks, anything below it does not. */
  lemma QuorumIff(vs: seq<ValidatorInfo>, a: set<Id>)
    ensures HasQuorum(vs, a) <==> MissingStake(vs, a) * 3 < TotalStake(vs)
  {
    StakeSplits(vs, a);
  }

  lemma {:induction false} MissingGrows(vs: seq<ValidatorInfo>, a: set<Id>, b: set<Id>)
    requires a <= b
    ensures MissingStake(vs, b) <= MissingStake(vs, a)
  {
    if vs != [] { MissingGrows(vs[1..], a, b); }
  }

  /** Disjoint voters cannot both be a quorum. */
  lemma QuorumExclusive(vs: seq<ValidatorInfo>, a: set<Id>, b: set<Id>)
    requires a !! b
    ensures !(HasQuorum(vs, a) && HasQuorum(vs, b))
  {
    if HasQuorum(vs, a) && HasQuorum(vs, b) {
      QuorumsIntersect(vs, vs, a, b);
      assert a * b == {};
      NoStake(vs);
    }
  }

  lemma {:induction false} NoStake(vs: seq<ValidatorInfo>)
    ensures StakeOf(vs, {}) == 0
  {
    if vs != [] { NoStake(vs[1..]); }
  }

  // ---------- Active validators, ordered by identity ----------

  const ById: ValidatorInfo -> nat := (v: ValidatorInfo) => v.id

  function ActiveOf(vs: seq<ValidatorInfo>): seq<ValidatorInfo> {
    if vs == [] then []
    else (if vs[0].status.Active? then [vs[0]] else []) + ActiveOf(vs[1..])
  }

  /** The active validators in identity order. */
  function ActiveSorted(vs: seq<ValidatorInfo>): seq<ValidatorInfo> {
    Sort(ById, ActiveOf(vs))
  }

  ghost predicate DistinctIds(vs: seq<ValidatorInfo>) {
    DistinctKeys(ById, vs)
  }

  predicate IsActive(vs: seq<ValidatorInfo>, id: Id) {
    exists i :: 0 <= i < |vs| && vs[i].id == id && vs[i].status.Active?
  }

  lemma {:induction false} ActiveOfCounts(vs: seq<ValidatorInfo>, v: ValidatorInfo)
    ensures multiset(ActiveOf(vs))[v] == if v.status.Active? then multiset(vs)[v] else 0
  {
    if vs != [] {
      ActiveOfCounts(vs[1..], v);
      assert vs == [vs[0]] + vs[1..];
    }
  }

  lemma ActiveMember(vs: seq<ValidatorInfo>, v: ValidatorInfo)
    ensures v in ActiveSorted(vs) <==> v in vs && v.status.Active?
  {
    ActiveOfCounts(vs, v);
    SortMember(ById, ActiveOf(vs), v);
    assert v in ActiveOf(vs) <==> v in multiset(ActiveOf(vs));
    assert v in vs <==> v in multiset(vs);
  }

  lemma ActiveSortedDistinct(vs: seq<ValidatorInfo>)
    requires DistinctIds(vs)
    ensures DistinctIds(ActiveSorted(vs))
  {
    var r := ActiveSorted(vs);
    forall i, j | 0 <= i < j < |r| ensures r[i] != r[j] {
      SortCorrect(ById, ActiveOf(vs));
      ActiveOfCounts(vs, r[i]);
      KeyOccursOnce(ById, vs, r[i]);
      if r[i] == r[j] { OccursTwice(r, i, j); }
    }
    forall i, j | 0 <= i < j < |r| ensures ById(r[i]) != ById(r[j]) {
      ActiveMember(vs, r[i]);
      ActiveMember(vs, r[j]);
      var a :| 0 <= a < |vs| && vs[a] == r[i];
      var b :| 0 <= b < |vs| && vs[b] == r[j];
    }
  }

  /** The order in which a node happens to store its validators never shows. */
  lemma ActiveOrderIndependent(vs: seq<ValidatorInfo>, ws: seq<ValidatorInfo>)
    requires DistinctIds(vs) && DistinctIds(ws) && multiset(vs) == multiset(ws)
    ensures ActiveSorted(vs) == ActiveSorted(ws)
  {
    SortCorrect(ById, ActiveOf(vs));
    SortCorrect(ById, ActiveOf(ws));
    forall v: ValidatorInfo ensures multiset(ActiveOf(vs))[v] == multiset(ActiveOf(ws))[v] {
      ActiveOfCounts(vs, v);
      ActiveOfCounts(ws, v);
    }
    ActiveSortedDistinct(vs);
    ActiveSortedDistinct(ws);
    SortedUnique(ById, ActiveSorted(vs), ActiveSorted(ws));
  }

  // ---------- Stake-weighted proposer choice ----------

  /** Stake held before position `i`. */
  function StakeBefore(vs: seq<ValidatorInfo>, i: nat): nat
    requires i <= |vs|
  {
    TotalStake(vs[..i])
  }

  lemma {:induction false} TotalStakeAppend(vs: seq<ValidatorInfo>, ws: seq<ValidatorInfo>)
    ensures TotalStake(vs + ws) == TotalStake(vs) + TotalStake(ws)
  {
    if vs == [] {
      assert vs + ws == ws;
    } else {
      assert (vs + ws)[1..] == vs[1..] + ws;
      TotalStakeAppend(vs[1..], ws);
    }
  }

  lemma StakeBeforeStep(vs: seq<ValidatorInfo>, i: nat)
    requires i < |vs|
    ensures StakeBefore(vs, i + 1) == StakeBefore(vs, i) + vs[i].stake
  {
    assert vs[..i + 1] == vs[..i] + [vs[i]];
    TotalStakeAppend(vs[..i], [vs[i]]);
  }

  lemma {:induction false} StakeBeforeMonotone(vs: seq<ValidatorInfo>, i: nat, j: nat)
    requires i <= j <= |vs|
    ensures StakeBefore(vs, i) <= StakeBefore(vs, j)
  {
    if i < j {
      StakeBeforeMonotone(vs, i, j - 1);
      StakeBeforeStep(vs, j - 1);
    }
  }

  /** Position `i` owns the half-open range of residues that its stake spans. */
  ghost predicate Owns(active: seq<ValidatorInfo>, i: nat, target: nat)
    requires i < |active|
  {
    StakeBefore(active, i) <= target < StakeBefore(active, i + 1)
  }

  /** The residues below the total stake that select position `i`. */
  ghost function Residues(active: seq<ValidatorInfo>, i: nat): set<nat>
    requires i < |active|
  {
    set t: nat | t < TotalStake(active) && Owns(active, i, t)
  }

  lemma OwnerUnique(active: seq<ValidatorInfo>, i: nat, j: nat, target: nat)
    requires i < |active| && j < |active|
    requires Owns(active, i, target) && Owns(active, j, target)
    ensures i == j
  {
    if i < j { StakeBeforeMonotone(active, i + 1, j); }
    if j < i { StakeBeforeMonotone(active, j + 1, i); }
  }

  ghost predicate Within(lo: nat, t: nat, hi: nat) { lo <= t < hi }

  lemma {:induction false} RangeSize(lo: nat, end: nat, hi: nat)
    requires lo <= end <= hi
    ensures |set t: nat | t < hi && Within(lo, t, end)| == end - lo
  {
    var s := set t: nat | t < hi && Within(lo, t, end);
    if lo == end {
      assert s == {};
    } else {
      var last := end - 1;
      RangeSize(lo, last, hi);
      assert s == (set t: nat | t < hi && Within(lo, t, last)) + {last};
    }
  }

  /** Exactly `stake` of the residues modulo the total select each validator. */
  lemma SelectionIsProportional(active: seq<ValidatorInfo>, i: nat)
    requires i < |active|
    ensures |Residues(active, i)| == active[i].stake
  {
    StakeBeforeStep(active, i);
    StakeBeforeMonotone(active, i + 1, |active|);
    assert active[..|active|] == active;
    var lo, end := StakeBefore(active, i), StakeBefore(active, i + 1);
    RangeSize(lo, end, TotalStake(active));
    assert Residues(active, i) == set t: nat | t < TotalStake(active) && Within(lo, t, end);
  }

  /** Who proposes at a height: nobody without active validators, the one whose turn it is
      in the genesis epoch, the first if there is no stake, and otherwise the owner of the
      drawn residue. */
  ghost predicate Designated(vs: seq<ValidatorInfo>, height: nat, seed: Hash, selector: nat, p: Option<Id>) {
    var active := ActiveSorted(vs);
    if active == [] then p == None
    else if seed == 0 then p == Some(active[height % |active|].id)
    else if TotalStake(active) == 0 then p == Some(active[0].id)
    else exists i :: 0 <= i < |active| && p == Some(active[i].id)
                     && Owns(active, i, selector % TotalStake(active))
  }

  /** Stake-weighted choice of the proposer for a height; `selector` is the number
      drawn from the seed and the height, and seed 0 is the genesis epoch. */
  method ProposerForHeight(vs: seq<ValidatorInfo>, height: nat, seed: Hash, selector: nat)
    returns (p: Option<Id>)
    ensures Designated(vs, height, seed, selector, p)
  {
    var active := ActiveSorted(vs);
    if active == [] { return None; }
    if seed == 0 { return Some(active[height % |active|].id); }
    var totalStake := TotalStake(active);
    if totalStake == 0 { return Some(active[0].id); }
    var target := selector % totalStake;
    assert active[..|active|] == active;
    var cumulative := 0;
    var k := 0;
    while k < |active|
      invariant k <= |active|
      invariant cumulative == StakeBefore(active, k) <= target
    {
      StakeBeforeStep(active, k);
      cumulative := cumulative + active[k].stake;
      if cumulative > target {
        assert Owns(active, k, target);
        return Some(active[k].id);
      }
      k := k + 1;
    }
    assert false; // the fallback after the loop is never taken
  }

  /** Nodes that hold the same distinct validators, in any order, choose the same proposer. */
  lemma ProposerAgreement(vs: seq<ValidatorInfo>, ws: seq<ValidatorInfo>, height: nat, seed: Hash, selector: nat,
                          p: Option<Id>, q: Option<Id>)
    requires DistinctIds(vs) && DistinctIds(ws) && multiset(vs) == multiset(ws)
    requires Designated(vs, height, seed, selector, p) && Designated(ws, height, seed, selector, q)
    ensures p == q
  {
    ActiveOrderIndependent(vs, ws);
    var active := ActiveSorted(vs);
    if active != [] && seed != 0 && TotalStake(active) != 0 {
      var target := selector % TotalStake(active);
      var i :| 0 <= i < |active| && p == Some(active[i].id) && Owns(active, i, target);
      var j :| 0 <= j < |active| && q == Some(active[j].id) && Owns(active, j, target);
      OwnerUnique(active, i, j, target);
    }
  }

  // ---------- Proposer order ----------

  datatype Scored = Scored(score: nat, id: Id)

  const ByScore: Scored -> nat := (x: Scored) => x.score

  /** A validator's priority: its drawn number divided by its stake, lower first. */
  function Effective(v: ValidatorInfo, drawn: nat): nat {
    if v.stake > 0 then drawn / v.stake else MAX_U128
  }

  function Scores(active: seq<ValidatorInfo>, height: nat, seed: Hash,
                  draw: (Hash, nat, Id) -> nat): seq<Scored>
  {
    seq(|active|, i requires 0 <= i < |active| =>
      Scored(Effective(active[i], draw(seed, height, active[i].id)), active[i].id))
  }

  function Ids(active: seq<ValidatorInfo>): seq<Id> {
    seq(|active|, i requires 0 <= i < |active| => active[i].id)
  }

  /** Proposer order for a height: position 0 is designated, the rest are backups.
      The genesis epoch (seed 0) rotates; later epochs sort by stake-weighted score. */
  function ProposerOrder(vs: seq<ValidatorInfo>, height: nat, seed: Hash,
                         draw: (Hash, nat, Id) -> nat): seq<Id>
  {
    var active := ActiveSorted(vs);
    if active == [] then []
    else if seed == 0 then
      var start := height % |active|;
      Ids(active[start..]) + Ids(active[..start])
    else
      var scored := Sort(ByScore, Scores(active, height, seed, draw));
      seq(|scored|, i requires 0 <= i < |scored| => scored[i].id)
  }

  lemma ActiveIds(vs: seq<ValidatorInfo>, id: Id)
    ensures IsActive(vs, id) <==> exists i :: 0 <= i < |ActiveSorted(vs)| && ActiveSorted(vs)[i].id == id
  {
    var active := ActiveSorted(vs);
    if IsActive(vs, id) {
      var i :| 0 <= i < |vs| && vs[i].id == id && vs[i].status.Active?;
      ActiveMember(vs, vs[i]);
    }
    if i :| 0 <= i < |active| && active[i].id == id {
      ActiveMember(vs, active[i]);
      var k :| 0 <= k < |vs| && vs[k] == active[i];
    }
  }

  /** The rotation check on a received block adds nothing to the active-set check:
      the order lists exactly the active validators. */
  lemma OrderListsActive(vs: seq<ValidatorInfo>, height: nat, seed: Hash,
                         draw: (Hash, nat, Id) -> nat, id: Id)
    ensures id in ProposerOrder(vs, height, seed, draw) <==> IsActive(vs, id)
  {
    var active := ActiveSorted(vs);
    var order := ProposerOrder(vs, height, seed, draw);
    ActiveIds(vs, id);
    if active == [] {
    } else if seed == 0 {
      var start := height % |active|;
      if i :| 0 <= i < |active| && active[i].id == id {
        if i < start { assert Ids(active[..start])[i] == id; } else { assert Ids(active[start..])[i - start] == id; }
      }
    } else {
      var xs := Scores(active, height, seed, draw);
      var ys := Sort(ByScore, xs);
      if k :| 0 <= k < |order| && order[k] == id {
        SortMember(ByScore, xs, ys[k]);
        var i :| 0 <= i < |xs| && xs[i] == ys[k];
      }
      if i :| 0 <= i < |active| && active[i].id == id {
        SortMember(ByScore, xs, xs[i]);
        var k :| 0 <= k < |ys| && ys[k] == xs[i];
        assert order[k] == id;
      }
    }
  }

  // ---------- In-place updates ----------

  /** Position of the first entry with this identity (`find`). */
  function IndexOf(vs: seq<ValidatorInfo>, id: Id): (r: Option<nat>)
    ensures r.Some? ==> r.value < |vs| && vs[r.value].id == id
    ensures r.Some? ==> forall j :: 0 <= j < r.value ==> vs[j].id != id
    ensures r.None? ==> forall j :: 0 <= j < |vs| ==> vs[j].id != id
  {
    if vs == [] then None
    else if vs[0].id == id then Some(0)
    else match IndexOf(vs[1..], id)
      case None => assert forall j :: 1 <= j < |vs| ==> vs[j] == vs[1..][j - 1]; None
      case Some(k) => assert forall j :: 1 <= j <= k ==> vs[j] == vs[1..][j - 1]; Some(k + 1)
  }

  class ValidatorSet {
    var validators: seq<ValidatorInfo>

    constructor (vs: seq<ValidatorInfo>)
      ensures validators == vs
    {
      validators := vs;
    }

    method Add(info: ValidatorInfo)
      modifies this
      ensures validators == old(validators) + [info]
    {
      validators := validators + [info];
    }

    /** Keeps exactly the entries with another identity, in order. */
    method Remove(id: Id)
      modifies this
      ensures validators == Without(old(validators), id)
    {
      validators := Without(validators, id);
    }

    /** Jailing takes a validator out of proposer rotation and changes neither the
        quorum denominator nor anyone's weight in it. */
    method Jail(id: Id) returns (found: bool)
      modifies this
      ensures found <==> exists i :: 0 <= i < |old(validators)| && old(validators)[i].id == id
      ensures validators == match IndexOf(old(validators), id)
                            case None => old(validators)
                            case Some(i) => old(validators)[i := old(validators)[i].(status := Jailed)]
      ensures Committed(validators) == Committed(old(validators))
      ensures forall a :: HasQuorum(validators, a) == HasQuorum(old(validators), a)
      ensures DistinctIds(old(validators)) ==> !IsActive(validators, id)
    {
      ghost var before := validators;
      match IndexOf(validators, id) {
        case None =>
          found := false;
        case Some(i) =>
          validators := validators[i := validators[i].(status := Jailed)];
          found := true;
      }
      match IndexOf(before, id) {
        case None =>
        case Some(i) =>
          TakeOut(before, i, {});
          TakeOut(validators, i, {});
          assert validators[..i] + validators[i + 1..] == before[..i] + before[i + 1..];
      }
      forall a ensures HasQuorum(validators, a) == HasQuorum(before, a) {
        StakeIsCommitted(validators, before, a);
      }
    }
  }

  function Without(vs: seq<ValidatorInfo>, id: Id): (r: seq<ValidatorInfo>)
    ensures forall v :: v in r <==> v in vs && v.id != id
  {
    if vs == [] then []
    else
      assert vs == [vs[0]] + vs[1..];
      (if vs[0].id == id then [] else [vs[0]]) + Without(vs[1..], id)
  }
}
