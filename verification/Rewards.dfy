/** Epoch rewards: a pool paid out to validators and their delegators by two levels of
    floor division. */
module Rewards {
  import opened Types
  import opened Ledger

  datatype Delegation = Delegation(delegator: Id, amount: nat)

  /** A validator eligible this epoch, with its eligible delegations. */
  datatype Staker = Staker(id: Id, totalStake: nat, commissionBps: nat, delegations: seq<Delegation>)

  datatype Credit = Credit(to: Id, amount: nat)

  const BPS: nat := 10_000

  // ---------- Floor shares ----------

  function Sum(ws: seq<nat>): nat { if ws == [] then 0 else ws[0] + Sum(ws[1..]) }

  /** What a weight out of `total` gets of `amount`. */
  function Share(amount: nat, weight: nat, total: nat): nat
    requires total > 0
  {
    SatMul(amount, weight) / total
  }

  function Shares(amount: nat, ws: seq<nat>, total: nat): seq<nat>
    requires total > 0
  {
    if ws == [] then [] else [Share(amount, ws[0], total)] + Shares(amount, ws[1..], total)
  }

  ghost predicate NoSaturation(amount: nat, ws: seq<nat>) {
    forall i :: 0 <= i < |ws| ==> amount * ws[i] <= MAX_U128
  }

  lemma ShareBounds(amount: nat, weight: nat, total: nat)
    requires total > 0
    ensures total * Share(amount, weight, total) <= amount * weight
    ensures amount * weight <= MAX_U128 ==> amount * weight < total * (Share(amount, weight, total) + 1)
  {
  }

  /** Scaled by the total, the shares lie within one unit per weight below the exact split. */
  lemma {:induction false} SharesBounds(amount: nat, ws: seq<nat>, total: nat)
    requires total > 0
    ensures total * Sum(Shares(amount, ws, total)) <= amount * Sum(ws)
    ensures NoSaturation(amount, ws) ==> amount * Sum(ws) <= total * (Sum(Shares(amount, ws, total)) + |ws|)
    ensures NoSaturation(amount, ws) && ws != [] ==> amount * Sum(ws) < total * (Sum(Shares(amount, ws, total)) + |ws|)
  {
    if ws != [] {
      var s, rest := Share(amount, ws[0], total), Shares(amount, ws[1..], total);
      assert Shares(amount, ws, total)[1..] == rest;
      ShareBounds(amount, ws[0], total);
      SharesBounds(amount, ws[1..], total);
      assert NoSaturation(amount, ws) ==> NoSaturation(amount, ws[1..]);
      Distribute(amount, ws[0], Sum(ws[1..]));
      Distribute(total, s, Sum(rest));
      Distribute(total, s + 1, Sum(rest) + |ws[1..]|);
    }
  }

  lemma Distribute(a: nat, b: nat, c: nat)
    ensures a * (b + c) == a * b + a * c
  {
  }

  lemma CancelLe(d: nat, a: nat, b: nat)
    requires d > 0 && d * a <= d * b
    ensures a <= b
  {
  }

  lemma CancelLt(d: nat, a: nat, b: nat)
    requires d > 0 && d * a < d * b
    ensures a < b
  {
  }

  lemma ScaleLe(d: nat, a: nat, b: nat)
    requires a <= b
    ensures d * a <= d * b
  {
  }

  /** Splitting an amount by weights never gives away more than the amount, and leaves
      less than one unit per weight. */
  lemma SplitBounds(amount: nat, ws: seq<nat>, total: nat)
    requires total > 0 && Sum(ws) == total
    ensures Sum(Shares(amount, ws, total)) <= amount
    ensures NoSaturation(amount, ws) ==> amount < Sum(Shares(amount, ws, total)) + |ws|
  {
    SharesBounds(amount, ws, total);
    CancelLe(total, Sum(Shares(amount, ws, total)), amount);
    if NoSaturation(amount, ws) { CancelLt(total, amount, Sum(Shares(amount, ws, total)) + |ws|); }
  }

  /** A part of the total gets at most the amount. */
  lemma ShareAtMost(amount: nat, weight: nat, total: nat)
    requires total > 0 && weight <= total
    ensures Share(amount, weight, total) <= amount
  {
    ShareBounds(amount, weight, total);
    ScaleLe(amount, weight, total);
    CancelLe(total, Share(amount, weight, total), amount);
  }

  // ---------- The payout list ----------

  function Amounts(ds: seq<Delegation>): seq<nat> {
    seq(|ds|, i requires 0 <= i < |ds| => ds[i].amount)
  }

  function StakesOf(active: seq<Staker>): seq<nat> {
    seq(|active|, i requires 0 <= i < |active| => active[i].totalStake)
  }

  function DelegatorPool(v: Staker, share: nat): nat {
    var eligible := Sum(Amounts(v.delegations));
    if eligible > 0 && v.totalStake > 0 && share > 0 then Share(share, eligible, v.totalStake) else 0
  }

  function Commission(v: Staker, share: nat): nat { SatMul(DelegatorPool(v, share), v.commissionBps) / BPS }

  function DelegatorNet(v: Staker, share: nat): nat { SatSub(DelegatorPool(v, share), Commission(v, share)) }

  function ValidatorReward(v: Staker, share: nat): nat {
    SatSub(share, DelegatorPool(v, share)) + Commission(v, share)
  }

  /** Delegators that get something, in order. */
  function DelegatorCredits(ds: seq<Delegation>, net: nat, eligible: nat): seq<Credit>
    requires eligible > 0
  {
    if ds == [] then []
    else
      var share := Share(net, ds[0].amount, eligible);
      (if share == 0 then [] else [Credit(ds[0].delegator, share)]) + DelegatorCredits(ds[1..], net, eligible)
  }

  function CreditsOf(v: Staker, share: nat): seq<Credit> {
    var eligible, net := Sum(Amounts(v.delegations)), DelegatorNet(v, share);
    [Credit(v.id, ValidatorReward(v, share))]
    + if net > 0 && eligible > 0 then DelegatorCredits(v.delegations, net, eligible) else []
  }

  function AllCredits(active: seq<Staker>, reward: nat, total: nat): seq<Credit>
    requires total > 0
  {
    if active == [] then []
    else
      var share := Share(reward, active[0].totalStake, total);
      (if active[0].totalStake == 0 || share == 0 then [] else CreditsOf(active[0], share))
      + AllCredits(active[1..], reward, total)
  }

  function Issued(cs: seq<Credit>): nat { if cs == [] then 0 else cs[0].amount + Issued(cs[1..]) }

  lemma {:induction false} IssuedAppend(a: seq<Credit>, b: seq<Credit>)
    ensures Issued(a + b) == Issued(a) + Issued(b)
  {
    if a == [] {
      assert a + b == b;
    } else {
      assert (a + b)[1..] == a[1..] + b;
      IssuedAppend(a[1..], b);
    }
  }

  /** Commission at most 100 percent, eligible delegations within the stake. */
  predicate Sane(v: Staker) {
    v.commissionBps <= BPS && Sum(Amounts(v.delegations)) <= v.totalStake
  }

  lemma {:induction false} DelegatorsIssued(ds: seq<Delegation>, net: nat, eligible: nat)
    requires eligible > 0
    ensures Issued(DelegatorCredits(ds, net, eligible)) == Sum(Shares(net, Amounts(ds), eligible))
  {
    if ds != [] {
      var share := Share(net, ds[0].amount, eligible);
      var first := if share == 0 then [] else [Credit(ds[0].delegator, share)];
      IssuedAppend(first, DelegatorCredits(ds[1..], net, eligible));
      assert first != [] ==> first[1..] == [];
      assert Amounts(ds)[1..] == Amounts(ds[1..]);
      assert Shares(net, Amounts(ds), eligible)[1..] == Shares(net, Amounts(ds[1..]), eligible);
      DelegatorsIssued(ds[1..], net, eligible);
    }
  }

  /** One validator's share is never overspent, and loses less than one unit per delegation. */
  lemma ValidatorIssued(v: Staker, share: nat)
    requires Sane(v)
    ensures Issued(CreditsOf(v, share)) <= share
    ensures NoSaturation(DelegatorNet(v, share), Amounts(v.delegations)) ==>
              share <= Issued(CreditsOf(v, share)) + |v.delegations|
  {
    var eligible, pool, net := Sum(Amounts(v.delegations)), DelegatorPool(v, share), DelegatorNet(v, share);
    if eligible > 0 { ShareAtMost(share, eligible, v.totalStake); }
    ShareAtMost(pool, v.commissionBps, BPS);
    assert Commission(v, share) <= pool <= share;
    var own := [Credit(v.id, ValidatorReward(v, share))];
    assert own[1..] == [];
    assert Issued(own) == ValidatorReward(v, share) + Issued(own[1..]);
    if net > 0 && eligible > 0 {
      IssuedAppend(own, DelegatorCredits(v.delegations, net, eligible));
      DelegatorsIssued(v.delegations, net, eligible);
      SplitBounds(net, Amounts(v.delegations), eligible);
    } else {
      IssuedAppend(own, []);
    }
  }

  /** A validator's share is split without a remainder between the validator and its
      delegators' net, and the commission is the exact fraction rounded down. */
  lemma ShareSplit(v: Staker, share: nat)
    requires Sane(v)
    ensures ValidatorReward(v, share) + DelegatorNet(v, share) == share
    ensures var pool := DelegatorPool(v, share);
      pool * v.commissionBps <= MAX_U128 ==>
        BPS * Commission(v, share) <= pool * v.commissionBps < BPS * (Commission(v, share) + 1)
  {
    var eligible, pool := Sum(Amounts(v.delegations)), DelegatorPool(v, share);
    if eligible > 0 { ShareAtMost(share, eligible, v.totalStake); }
    ShareAtMost(pool, v.commissionBps, BPS);
    ShareBounds(pool, v.commissionBps, BPS);
  }

  function Delegators(active: seq<Staker>): nat {
    if active == [] then 0 else |active[0].delegations| + Delegators(active[1..])
  }

  ghost predicate AllSane(active: seq<Staker>) { forall i :: 0 <= i < |active| ==> Sane(active[i]) }

  /** No product anywhere in the distribution saturates. */
  ghost predicate Exact(active: seq<Staker>, reward: nat, total: nat)
    requires total > 0
  {
    && NoSaturation(reward, StakesOf(active))
    && forall i :: 0 <= i < |active| ==>
         NoSaturation(DelegatorNet(active[i], Share(reward, active[i].totalStake, total)), Amounts(active[i].delegations))
  }

  lemma {:induction false} CreditsWithinShares(active: seq<Staker>, reward: nat, total: nat)
    requires total > 0 && AllSane(active)
    ensures Issued(AllCredits(active, reward, total)) <= Sum(Shares(reward, StakesOf(active), total))
    ensures Exact(active, reward, total) ==>
              Sum(Shares(reward, StakesOf(active), total)) <= Issued(AllCredits(active, reward, total)) + Delegators(active)
  {
    if active != [] {
      var v, rest := active[0], active[1..];
      var share := Share(reward, v.totalStake, total);
      assert StakesOf(active)[1..] == StakesOf(rest);
      assert Shares(reward, StakesOf(active), total)[1..] == Shares(reward, StakesOf(rest), total);
      var first := if v.totalStake == 0 || share == 0 then [] else CreditsOf(v, share);
      IssuedAppend(first, AllCredits(rest, reward, total));
      assert Sane(v);
      ValidatorIssued(v, share);
      assert Exact(active, reward, total) ==> Exact(rest, reward, total) by {
        assert forall i :: 0 <= i < |rest| ==> rest[i] == active[i + 1] && StakesOf(rest)[i] == StakesOf(active)[i + 1];
      }
      CreditsWithinShares(rest, reward, total);
    }
  }

  /** For any validators and delegations the credits sum to at most what was taken from
      the pool; unless a product saturates, less than one unit per validator and
      delegation stays undistributed. */
  lemma CreditsBounds(active: seq<Staker>, reward: nat)
    requires AllSane(active) && Sum(StakesOf(active)) > 0
    ensures var total := Sum(StakesOf(active));
      && Issued(AllCredits(active, reward, total)) <= reward
      && (Exact(active, reward, total) ==>
            reward < Issued(AllCredits(active, reward, total)) + |active| + Delegators(active))
  {
    var total := Sum(StakesOf(active));
    CreditsWithinShares(active, reward, total);
    SplitBounds(reward, StakesOf(active), total);
  }

  // ---------- Effect on the ledger ----------

  /** `credit_account_raw`: a missing account gets nothing. */
  function Credited(l: Ledger, c: Credit): Ledger {
    if c.to in l.accounts
    then Put(l, c.to, l.accounts[c.to].(balance := SatAdd(l.accounts[c.to].balance, c.amount))) else l
  }

  function CreditedAll(l: Ledger, cs: seq<Credit>): Ledger
    decreases |cs|
  {
    if cs == [] then l else CreditedAll(Credited(l, cs[0]), cs[1..])
  }

  /** `distribute_epoch_rewards_in_executor` */
  function Distributed(l: Ledger, active: seq<Staker>, rewardPerEpoch: nat): Ledger {
    var total, pool := Sum(StakesOf(active)), BalanceOf(l, STAKING_POOL_ADDRESS);
    if total == 0 || pool == 0 then l
    else
      var reward := Min(rewardPerEpoch, pool);
      var a := l.accounts[STAKING_POOL_ADDRESS];
      CreditedAll(Put(l, STAKING_POOL_ADDRESS, a.(balance := a.balance - reward)), AllCredits(active, reward, total))
  }

  lemma {:induction false} CreditedTotal(l: Ledger, cs: seq<Credit>)
    ensures Total(CreditedAll(l, cs)) <= Total(l) + Issued(cs)
    ensures (forall i :: 0 <= i < |cs| ==> cs[i].to in l.accounts) && Total(l) + Issued(cs) <= MAX_U128 ==>
              Total(CreditedAll(l, cs)) == Total(l) + Issued(cs)
    decreases |cs|
  {
    if cs != [] {
      var l' := Credited(l, cs[0]);
      if cs[0].to in l.accounts { TotalPut(l, cs[0].to, l'.accounts[cs[0].to]); }
      CreditedTotal(l', cs[1..]);
    }
  }

  /** Rewards never mint: the supply does not grow. With every recipient present and no
      saturation it falls by less than one unit per validator and eligible delegation. */
  lemma {:induction false} RewardsConserve(l: Ledger, active: seq<Staker>, rewardPerEpoch: nat)
    requires AllSane(active)
    ensures Total(Distributed(l, active, rewardPerEpoch)) <= Total(l)
    ensures var total, reward := Sum(StakesOf(active)), Min(rewardPerEpoch, BalanceOf(l, STAKING_POOL_ADDRESS));
      total > 0 && Total(l) <= MAX_U128 && Exact(active, reward, total) && Present(l, AllCredits(active, reward, total)) ==>
        Total(l) < Total(Distributed(l, active, rewardPerEpoch)) + |active| + Delegators(active)
  {
    var total, pool := Sum(StakesOf(active)), BalanceOf(l, STAKING_POOL_ADDRESS);
    if total > 0 && pool > 0 {
      var reward := Min(rewardPerEpoch, pool);
      var a := l.accounts[STAKING_POOL_ADDRESS];
      var taken := Put(l, STAKING_POOL_ADDRESS, a.(balance := a.balance - reward));
      TotalPut(l, STAKING_POOL_ADDRESS, taken.accounts[STAKING_POOL_ADDRESS]);
      CreditsBounds(active, reward);
      CreditedTotal(taken, AllCredits(active, reward, total));
    }
  }

  ghost predicate Present(l: Ledger, cs: seq<Credit>) {
    forall i :: 0 <= i < |cs| ==> cs[i].to in l.accounts
  }

  // ---------- The distribution loop ----------

  lemma {:induction false} CreditedAppend(l: Ledger, a: seq<Credit>, b: seq<Credit>)
    ensures CreditedAll(l, a + b) == CreditedAll(CreditedAll(l, a), b)
    decreases |a|
  {
    if a == [] {
      assert a + b == b;
    } else {
      assert (a + b)[1..] == a[1..] + b;
      CreditedAppend(Credited(l, a[0]), a[1..], b);
    }
  }

  lemma CreditedOne(l: Ledger, c: Credit)
    ensures CreditedAll(l, [c]) == Credited(l, c)
  {
  }

  method CreditAccount(state: StateManager, c: Credit)
    modifies state
    ensures state.ledger == Credited(old(state.ledger), c)
  {
    if c.to in state.ledger.accounts {
      var a := state.ledger.accounts[c.to];
      state.SaveAccount(c.to, a.(balance := SatAdd(a.balance, c.amount)));
    }
  }

  method CreditDelegators(state: StateManager, ds: seq<Delegation>, net: nat, eligible: nat)
    requires eligible > 0
    modifies state
    ensures state.ledger == CreditedAll(old(state.ledger), DelegatorCredits(ds, net, eligible))
  {
    var todo := ds;
    while todo != []
      invariant CreditedAll(state.ledger, DelegatorCredits(todo, net, eligible))
             == CreditedAll(old(state.ledger), DelegatorCredits(ds, net, eligible))
      decreases |todo|
    {
      var share := Share(net, todo[0].amount, eligible);
      ghost var rest := DelegatorCredits(todo[1..], net, eligible);
      if share != 0 {
        var c := Credit(todo[0].delegator, share);
        CreditedAppend(state.ledger, [c], rest);
        CreditedOne(state.ledger, c);
        CreditAccount(state, c);
      } else {
        assert DelegatorCredits(todo, net, eligible) == rest;
      }
      todo := todo[1..];
    }
  }

  method CreditValidator(state: StateManager, v: Staker, share: nat)
    modifies state
    ensures state.ledger == CreditedAll(old(state.ledger), CreditsOf(v, share))
  {
    var eligible, net := Sum(Amounts(v.delegations)), DelegatorNet(v, share);
    var own := Credit(v.id, ValidatorReward(v, share));
    ghost var rest := if net > 0 && eligible > 0 then DelegatorCredits(v.delegations, net, eligible) else [];
    CreditedAppend(state.ledger, [own], rest);
    CreditedOne(state.ledger, own);
    CreditAccount(state, own);
    if net > 0 && eligible > 0 { CreditDelegators(state, v.delegations, net, eligible); }
  }

  method DistributeEpochRewards(state: StateManager, active: seq<Staker>, rewardPerEpoch: nat)
    modifies state
    ensures state.ledger == Distributed(old(state.ledger), active, rewardPerEpoch)
  {
    var total := Sum(StakesOf(active));
    if total == 0 { return; }
    var pool := BalanceOf(state.ledger, STAKING_POOL_ADDRESS);
    if pool == 0 { return; }
    var reward := Min(rewardPerEpoch, pool);
    var a := state.ledger.accounts[STAKING_POOL_ADDRESS];
    state.SaveAccount(STAKING_POOL_ADDRESS, a.(balance := a.balance - reward));
    ghost var taken := state.ledger;
    var todo := active;
    while todo != []
      invariant CreditedAll(state.ledger, AllCredits(todo, reward, total))
             == CreditedAll(taken, AllCredits(active, reward, total))
      decreases |todo|
    {
      var v := todo[0];
      var share := Share(reward, v.totalStake, total);
      ghost var rest := AllCredits(todo[1..], reward, total);
      if v.totalStake != 0 && share != 0 {
        CreditedAppend(state.ledger, CreditsOf(v, share), rest);
        CreditValidator(state, v, share);
      } else {
        assert AllCredits(todo, reward, total) == rest;
      }
      todo := todo[1..];
    }
  }
}
