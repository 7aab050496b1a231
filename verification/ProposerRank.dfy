/** The order in which validators may propose at a height. */
module ProposerRank {
  import opened Types
  import opened Sorting
  import opened Validators
  import opened Engine
  import Rewards

  // ---------- Stable sorting ----------

  /** By score, and by identity where scores are equal. */
  predicate Earlier(a: Scored, b: Scored) { a.score < b.score || (a.score == b.score && a.id < b.id) }

  ghost predicate Ranked(xs: seq<Scored>) { forall i, j :: 0 <= i < j < |xs| ==> Earlier(xs[i], xs[j]) }

  ghost predicate Rising(xs: seq<Scored>) { forall i, j :: 0 <= i < j < |xs| ==> xs[i].id < xs[j].id }

  lemma {:induction false} InsertRanked(x: Scored, xs: seq<Scored>)
    requires Ranked(xs) && forall i :: 0 <= i < |xs| ==> x.id < xs[i].id
    ensures Ranked(Insert(ByScore, x, xs))
  {
    if !(xs == [] || ByScore(x) <= ByScore(xs[0])) {
      InsertRanked(x, xs[1..]);
      var r := Insert(ByScore, x, xs[1..]);
      InsertPermutes(ByScore, x, xs[1..]);
      forall j | 0 <= j < |r| ensures Earlier(xs[0], r[j]) {
        assert r[j] in multiset(r);
        if r[j] != x { assert r[j] in xs[1..]; }
      }
    }
  }

  /** Sorting entries in identity order by score keeps identity order among equal scores. */
  lemma {:induction false} SortRanked(xs: seq<Scored>)
    requires Rising(xs)
    ensures Ranked(Sort(ByScore, xs))
  {
    if xs != [] {
      SortRanked(xs[1..]);
      var r := Sort(ByScore, xs[1..]);
      forall i | 0 <= i < |r| ensures xs[0].id < r[i].id {
        SortMember(ByScore, xs[1..], r[i]);
        var k :| 0 <= k < |xs[1..]| && xs[1..][k] == r[i];
        assert xs[k + 1] == r[i];
      }
      InsertRanked(xs[0], r);
    }
  }

  // ---------- Rank ----------

  /** A rank is the first position of an identity. */
  lemma {:induction false} RankAt(order: seq<Id>, id: Id)
    ensures Rank(order, id) <= |order|
    ensures Rank(order, id) < |order| ==> order[Rank(order, id)] == id
    ensures forall i :: 0 <= i < Rank(order, id) ==> order[i] != id
  {
    if order != [] && order[0] != id { RankAt(order[1..], id); }
  }

  lemma ActiveRises(vs: seq<ValidatorInfo>)
    requires DistinctIds(vs)
    ensures var active := ActiveSorted(vs); forall i, j :: 0 <= i < j < |active| ==> active[i].id < active[j].id
  {
    SortCorrect(ById, ActiveOf(vs));
    ActiveSortedDistinct(vs);
    var active := ActiveSorted(vs);
    forall i, j | 0 <= i < j < |active| ensures active[i].id < active[j].id {
      assert ById(active[i]) <= ById(active[j]) && ById(active[i]) != ById(active[j]);
    }
  }

  /** A drawn number per unit of stake, rounded down; without stake, the largest. */
  function Priority(v: ValidatorInfo, drawn: nat): nat { if v.stake == 0 then MAX_U128 else drawn / v.stake }

  /** After the genesis epoch, of two active validators the one that drew less per unit of
      stake proposes first, and the lower identity on a tie. */
  lemma LowerDrawFirst(vs: seq<ValidatorInfo>, height: nat, seed: Hash, draw: (Hash, nat, Id) -> nat,
                       v: ValidatorInfo, w: ValidatorInfo)
    requires DistinctIds(vs) && seed != 0 && v in vs && w in vs && v.status.Active? && w.status.Active? && v.id != w.id
    ensures var order := ProposerOrder(vs, height, seed, draw);
      var a, b := Priority(v, draw(seed, height, v.id)), Priority(w, draw(seed, height, w.id));
      Rank(order, v.id) < Rank(order, w.id) <==> a < b || (a == b && v.id < w.id)
  {
    var active := ActiveSorted(vs);
    var xs := Scores(active, height, seed, draw);
    var ys, order := Sort(ByScore, xs), ProposerOrder(vs, height, seed, draw);
    ActiveRises(vs);
    SortRanked(xs);
    ActiveMember(vs, v);
    ActiveMember(vs, w);
    var i := ScoredAt(active, height, seed, draw, v);
    var j := ScoredAt(active, height, seed, draw, w);
    IdsDiffer(xs);
    RankIs(ys, order, i);
    RankIs(ys, order, j);
    assert Earlier(ys[i], ys[j]) || Earlier(ys[j], ys[i]);
  }

  lemma ScoredAt(active: seq<ValidatorInfo>, height: nat, seed: Hash, draw: (Hash, nat, Id) -> nat, v: ValidatorInfo)
    returns (i: nat)
    requires v in active
    ensures var ys := Sort(ByScore, Scores(active, height, seed, draw));
      i < |ys| && ys[i] == Scored(Priority(v, draw(seed, height, v.id)), v.id)
  {
    var xs := Scores(active, height, seed, draw);
    var k :| 0 <= k < |active| && active[k] == v;
    assert xs[k] == Scored(Priority(v, draw(seed, height, v.id)), v.id);
    SortMember(ByScore, xs, xs[k]);
    i :| 0 <= i < |Sort(ByScore, xs)| && Sort(ByScore, xs)[i] == xs[k];
  }

  lemma IdsDiffer(xs: seq<Scored>)
    requires Rising(xs)
    ensures var ys := Sort(ByScore, xs); forall a, b :: 0 <= a < b < |ys| ==> ys[a].id != ys[b].id
  {
    var ys := Sort(ByScore, xs);
    SortRanked(xs);
    forall a, b | 0 <= a < b < |ys| ensures ys[a].id != ys[b].id {
      SortMember(ByScore, xs, ys[a]);
      SortMember(ByScore, xs, ys[b]);
      var i :| 0 <= i < |xs| && xs[i] == ys[a];
      var j :| 0 <= j < |xs| && xs[j] == ys[b];
      assert Earlier(ys[a], ys[b]);
    }
  }

  lemma RankIs(ys: seq<Scored>, order: seq<Id>, i: nat)
    requires i < |ys| == |order| && (forall k :: 0 <= k < |ys| ==> order[k] == ys[k].id)
    requires forall a, b :: 0 <= a < b < |ys| ==> ys[a].id != ys[b].id
    ensures Rank(order, ys[i].id) == i
  {
    RankAt(order, ys[i].id);
  }

  /** In the genesis epoch the order starts at the height's turn and goes round. */
  lemma GenesisRotates(vs: seq<ValidatorInfo>, height: nat, draw: (Hash, nat, Id) -> nat, k: nat)
    requires k < |ActiveSorted(vs)|
    ensures var active, order := ActiveSorted(vs), ProposerOrder(vs, height, 0, draw);
      |order| == |active| && order[k] == active[(height + k) % |active|].id
  {
    var active := ActiveSorted(vs);
    var n := |active|;
    var start := height % n;
    assert (height + k) % n == if start + k < n then start + k else start + k - n by { Wrap(height, k, n); }
  }

  lemma Wrap(height: nat, k: nat, n: nat)
    requires k < n
    ensures (height + k) % n == if height % n + k < n then height % n + k else height % n + k - n
  {
    var q, s := height / n, height % n;
    assert height + k == q * n + (s + k);
    if s + k < n { Residue(q, s + k, n); } else {
      assert q * n + (s + k) == (q + 1) * n + (s + k - n);
      Residue(q + 1, s + k - n, n);
    }
  }

  lemma {:induction false} Residue(q: nat, r: nat, n: nat)
    requires r < n
    ensures (q * n + r) % n == r
  {
    if q > 0 {
      Residue(q - 1, r, n);
      assert q * n + r == ((q - 1) * n + r) + n;
      OneTurn((q - 1) * n + r, n);
    }
  }

  lemma OneTurn(m: nat, n: nat)
    requires n > 0
    ensures (m + n) % n == m % n
  {
    var q, r := m / n, m % n;
    assert m + n == n * (q + 1) + r;
    Unique(n, (m + n) / n, (m + n) % n, q + 1, r);
  }

  lemma Apart(n: nat, a: nat, b: nat)
    requires a < b
    ensures n * a + n <= n * b
  {
    Rewards.Distribute(n, a, 1);
    Rewards.ScaleLe(n, a + 1, b);
  }

  lemma Unique(n: nat, a: nat, r: nat, b: nat, s: nat)
    requires n * a + r == n * b + s && r < n && s < n
    ensures a == b && r == s
  {
    if a < b { Apart(n, a, b); }
    if b < a { Apart(n, b, a); }
  }
}
