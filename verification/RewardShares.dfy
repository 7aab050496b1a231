/** Who gets what of an epoch's reward, account by account. */
module RewardShares {
  import opened Types
  import opened Ledger
  import opened Rewards

  // ---------- What each account is owed ----------

  function EligibleOf(v: Staker): nat { Sum(Amounts(v.delegations)) }

  /** A validator's part of the reward, by stake. */
  function PartOf(v: Staker, reward: nat, total: nat): nat
    requires total > 0
  {
    reward * v.totalStake / total
  }

  /** The delegators' part of that, by delegated stake. */
  function PoolOf(v: Staker, part: nat): nat {
    if v.totalStake == 0 then 0 else part * EligibleOf(v) / v.totalStake
  }

  /** What the commission, in hundredths of a percent, leaves of it. */
  function NetOf(v: Staker, part: nat): int { PoolOf(v, part) - PoolOf(v, part) * v.commissionBps / 10_000 }

  function DelegationGain(ds: seq<Delegation>, net: nat, eligible: nat, id: Id): nat {
    if ds == [] || eligible == 0 then 0
    else (if ds[0].delegator == id then net * ds[0].amount / eligible else 0) + DelegationGain(ds[1..], net, eligible, id)
  }

  /** What one validator's part brings an account: the part less the delegators' net to the
      validator, and each delegator's share of the net. */
  function StakerGain(v: Staker, part: nat, id: Id): int {
    var net := NetOf(v, part);
    (if v.id == id then part - net else 0) + DelegationGain(v.delegations, if net < 0 then 0 else net, EligibleOf(v), id)
  }

  function Gain(active: seq<Staker>, reward: nat, total: nat, id: Id): int
    requires total > 0
  {
    if active == [] then 0
    else StakerGain(active[0], PartOf(active[0], reward, total), id) + Gain(active[1..], reward, total, id)
  }

  // ---------- Credits by account ----------

  function CreditTo(cs: seq<Credit>, id: Id): nat {
    if cs == [] then 0 else (if cs[0].to == id then cs[0].amount else 0) + CreditTo(cs[1..], id)
  }

  lemma {:induction false} CreditToAppend(a: seq<Credit>, b: seq<Credit>, id: Id)
    ensures CreditTo(a + b, id) == CreditTo(a, id) + CreditTo(b, id)
  {
    if a == [] {
      assert a + b == b;
    } else {
      assert (a + b)[1..] == a[1..] + b;
      CreditToAppend(a[1..], b, id);
    }
  }

  /** Crediting moves balances only, each by what is credited to it. */
  lemma {:induction false} CreditedExact(l: Ledger, cs: seq<Credit>, id: Id)
    requires Total(l) + Issued(cs) <= MAX_U128
    ensures var r := CreditedAll(l, cs);
      && r == l.(accounts := r.accounts) && r.accounts.Keys == l.accounts.Keys
      && (id in l.accounts ==> r.accounts[id] == l.accounts[id].(balance := l.accounts[id].balance + CreditTo(cs, id)))
    decreases |cs|
  {
    if cs != [] {
      var l' := Credited(l, cs[0]);
      if cs[0].to in l.accounts {
        TotalPut(l, cs[0].to, l.accounts[cs[0].to]);
        TotalPut(l, cs[0].to, l'.accounts[cs[0].to]);
      }
      CreditedExact(l', cs[1..], id);
    }
  }

  /** No product saturates in 128 bits. */
  ghost predicate Fits(v: Staker, reward: nat, total: nat)
    requires total > 0
  {
    var part := PartOf(v, reward, total);
    && reward * v.totalStake <= MAX_U128 && part * EligibleOf(v) <= MAX_U128
    && PoolOf(v, part) * v.commissionBps <= MAX_U128
    && forall i :: 0 <= i < |v.delegations| ==> NetOf(v, part) * v.delegations[i].amount <= MAX_U128
  }

  ghost predicate AllFit(active: seq<Staker>, reward: nat, total: nat)
    requires total > 0
  {
    forall i :: 0 <= i < |active| ==> Fits(active[i], reward, total)
  }

  lemma FloorAtMost(amount: nat, weight: nat, total: nat)
    requires 0 < total && weight <= total && amount * weight <= MAX_U128
    ensures amount * weight / total <= amount
  {
    ShareAtMost(amount, weight, total);
  }

  /** The model's amounts are these. */
  lemma AmountsAre(v: Staker, reward: nat, total: nat)
    requires total > 0 && Sane(v) && Fits(v, reward, total)
    ensures var part := PartOf(v, reward, total);
      && Share(reward, v.totalStake, total) == part
      && DelegatorPool(v, part) == PoolOf(v, part) <= part
      && 0 <= NetOf(v, part) == DelegatorNet(v, part) <= PoolOf(v, part)
      && ValidatorReward(v, part) == part - NetOf(v, part)
  {
    var part := PartOf(v, reward, total);
    PoolIs(v, part);
    FloorAtMost(PoolOf(v, part), v.commissionBps, 10_000);
  }

  lemma PoolIs(v: Staker, part: nat)
    requires Sane(v) && part * EligibleOf(v) <= MAX_U128
    ensures DelegatorPool(v, part) == PoolOf(v, part) <= part
  {
    if v.totalStake > 0 {
      FloorAtMost(part, EligibleOf(v), v.totalStake);
      if part == 0 || EligibleOf(v) == 0 { assert part * EligibleOf(v) == 0; }
    }
  }

  // ---------- The credits are what is owed ----------

  lemma {:induction false} DelegatorsGet(ds: seq<Delegation>, net: nat, eligible: nat, id: Id)
    requires eligible > 0 && forall i :: 0 <= i < |ds| ==> net * ds[i].amount <= MAX_U128
    ensures CreditTo(DelegatorCredits(ds, net, eligible), id) == DelegationGain(ds, net, eligible, id)
  {
    if ds != [] {
      var share := Share(net, ds[0].amount, eligible);
      var first := if share == 0 then [] else [Credit(ds[0].delegator, share)];
      CreditToAppend(first, DelegatorCredits(ds[1..], net, eligible), id);
      assert first != [] ==> first[1..] == [];
      DelegatorsGet(ds[1..], net, eligible, id);
    }
  }

  lemma {:induction false} NothingGained(ds: seq<Delegation>, eligible: nat, id: Id)
    ensures DelegationGain(ds, 0, eligible, id) == 0
  {
    if ds != [] && eligible > 0 {
      assert 0 * ds[0].amount == 0;
      NothingGained(ds[1..], eligible, id);
    }
  }

  lemma StakerGets(v: Staker, reward: nat, total: nat, id: Id)
    requires total > 0 && Sane(v) && Fits(v, reward, total)
    ensures var part := PartOf(v, reward, total); CreditTo(CreditsOf(v, part), id) == StakerGain(v, part, id)
  {
    var part := PartOf(v, reward, total);
    AmountsAre(v, reward, total);
    var net, own := DelegatorNet(v, part), [Credit(v.id, ValidatorReward(v, part))];
    assert own[1..] == [];
    if net > 0 && EligibleOf(v) > 0 {
      CreditToAppend(own, DelegatorCredits(v.delegations, net, EligibleOf(v)), id);
      DelegatorsGet(v.delegations, net, EligibleOf(v), id);
    } else {
      CreditToAppend(own, [], id);
      if net == 0 { NothingGained(v.delegations, EligibleOf(v), id); }
    }
  }

  lemma SkippedGetsNothing(v: Staker, id: Id)
    ensures StakerGain(v, 0, id) == 0
  {
    assert 0 * EligibleOf(v) == 0;
    NothingGained(v.delegations, EligibleOf(v), id);
  }

  lemma {:induction false} CreditsAreGains(active: seq<Staker>, reward: nat, total: nat, id: Id)
    requires total > 0 && AllSane(active) && AllFit(active, reward, total)
    ensures CreditTo(AllCredits(active, reward, total), id) == Gain(active, reward, total, id)
  {
    if active != [] {
      var v, rest := active[0], active[1..];
      assert Sane(v) && Fits(v, reward, total);
      AmountsAre(v, reward, total);
      var part := PartOf(v, reward, total);
      var first := if v.totalStake == 0 || part == 0 then [] else CreditsOf(v, part);
      CreditToAppend(first, AllCredits(rest, reward, total), id);
      if first == [] {
        if v.totalStake == 0 { assert reward * v.totalStake == 0; }
        SkippedGetsNothing(v, id);
      } else {
        StakerGets(v, reward, total, id);
      }
      assert AllSane(rest) && AllFit(rest, reward, total) by { assert forall i :: 0 <= i < |rest| ==> rest[i] == active[i + 1]; }
      CreditsAreGains(rest, reward, total, id);
    }
  }

  /** Every account after a distribution: the pool has paid the reward, every account has
      what it is owed, and nothing else has changed. */
  lemma DistributedExact(l: Ledger, active: seq<Staker>, rewardPerEpoch: nat, id: Id)
    requires AllSane(active) && Total(l) <= MAX_U128 && Sum(StakesOf(active)) > 0 && id in l.accounts
    requires AllFit(active, Min(rewardPerEpoch, BalanceOf(l, STAKING_POOL_ADDRESS)), Sum(StakesOf(active)))
    ensures var reward, r := Min(rewardPerEpoch, BalanceOf(l, STAKING_POOL_ADDRESS)), Distributed(l, active, rewardPerEpoch);
      && r == l.(accounts := r.accounts) && r.accounts.Keys == l.accounts.Keys
      && r.accounts[id] == l.accounts[id].(balance := r.accounts[id].balance)
      && r.accounts[id].balance == l.accounts[id].balance - (if id == STAKING_POOL_ADDRESS then reward else 0)
                                   + Gain(active, reward, Sum(StakesOf(active)), id)
  {
    var total, pool := Sum(StakesOf(active)), BalanceOf(l, STAKING_POOL_ADDRESS);
    var reward := Min(rewardPerEpoch, pool);
    if pool == 0 {
      NoReward(active, total, id);
    } else {
      var a := l.accounts[STAKING_POOL_ADDRESS];
      var taken := Put(l, STAKING_POOL_ADDRESS, a.(balance := a.balance - reward));
      TotalPut(l, STAKING_POOL_ADDRESS, taken.accounts[STAKING_POOL_ADDRESS]);
      PaidExact(taken, active, reward, total, id);
    }
  }

  /** Paying the credits gives every account what it is owed. */
  lemma PaidExact(l: Ledger, active: seq<Staker>, reward: nat, total: nat, id: Id)
    requires AllSane(active) && 0 < total == Sum(StakesOf(active)) && AllFit(active, reward, total)
    requires Total(l) + reward <= MAX_U128 && id in l.accounts
    ensures var r := CreditedAll(l, AllCredits(active, reward, total));
      && r == l.(accounts := r.accounts) && r.accounts.Keys == l.accounts.Keys
      && r.accounts[id] == l.accounts[id].(balance := r.accounts[id].balance)
      && r.accounts[id].balance == l.accounts[id].balance + Gain(active, reward, total, id)
  {
    CreditsBounds(active, reward);
    CreditedExact(l, AllCredits(active, reward, total), id);
    CreditsAreGains(active, reward, total, id);
  }

  lemma {:induction false} NoReward(active: seq<Staker>, total: nat, id: Id)
    requires total > 0
    ensures Gain(active, 0, total, id) == 0
  {
    if active != [] {
      assert 0 * active[0].totalStake == 0;
      SkippedGetsNothing(active[0], id);
      NoReward(active[1..], total, id);
    }
  }

  // ---------- One recipient ----------

  /** `part`, `pool` and `net` are the exact fractions, each rounded down once: of the reward
      by stake, of the part by delegated stake, and of the pool after commission. */
  ghost predicate FairSplit(v: Staker, reward: nat, total: nat, part: nat, pool: nat, net: nat) {
    && total * part <= reward * v.totalStake < total * (part + 1)
    && v.totalStake * pool <= part * EligibleOf(v) < v.totalStake * (pool + 1)
    && net <= pool <= part
    && 10_000 * (pool - net) <= pool * v.commissionBps < 10_000 * (pool - net + 1)
  }

  lemma FloorIs(a: nat, t: nat)
    requires t > 0
    ensures t * (a / t) <= a < t * (a / t + 1)
  {
  }

  lemma SplitIsFair(v: Staker, reward: nat, total: nat)
    requires total > 0 && v.totalStake > 0 && Sane(v) && Fits(v, reward, total)
    ensures var part := PartOf(v, reward, total);
      0 <= NetOf(v, part) && FairSplit(v, reward, total, part, PoolOf(v, part), NetOf(v, part))
  {
    var part := PartOf(v, reward, total);
    AmountsAre(v, reward, total);
    FloorIs(reward * v.totalStake, total);
    FloorIs(part * EligibleOf(v), v.totalStake);
    FloorIs(PoolOf(v, part) * v.commissionBps, 10_000);
  }

  predicate Pays(v: Staker, id: Id) {
    v.id == id || exists j :: 0 <= j < |v.delegations| && v.delegations[j].delegator == id
  }

  lemma {:induction false} NoDelegation(ds: seq<Delegation>, net: nat, eligible: nat, id: Id)
    requires forall j :: 0 <= j < |ds| ==> ds[j].delegator != id
    ensures DelegationGain(ds, net, eligible, id) == 0
  {
    if ds != [] { NoDelegation(ds[1..], net, eligible, id); }
  }

  lemma {:induction false} OneDelegation(ds: seq<Delegation>, net: nat, eligible: nat, k: nat)
    requires eligible > 0 && k < |ds| && forall j :: 0 <= j < |ds| && j != k ==> ds[j].delegator != ds[k].delegator
    ensures DelegationGain(ds, net, eligible, ds[k].delegator) == net * ds[k].amount / eligible
  {
    if k == 0 {
      NoDelegation(ds[1..], net, eligible, ds[0].delegator);
    } else {
      assert ds[1..][k - 1] == ds[k];
      OneDelegation(ds[1..], net, eligible, k - 1);
    }
  }

  lemma {:induction false} OneStaker(active: seq<Staker>, reward: nat, total: nat, id: Id, i: nat)
    requires total > 0 && i < |active| && forall j :: 0 <= j < |active| && j != i ==> !Pays(active[j], id)
    ensures Gain(active, reward, total, id) == StakerGain(active[i], PartOf(active[i], reward, total), id)
  {
    if i == 0 {
      NoStaker(active[1..], reward, total, id);
    } else {
      Unpaid(active[0], PartOf(active[0], reward, total), id);
      assert active[1..][i - 1] == active[i];
      assert forall j :: 0 <= j < |active[1..]| ==> active[1..][j] == active[j + 1];
      OneStaker(active[1..], reward, total, id, i - 1);
    }
  }

  lemma Unpaid(v: Staker, part: nat, id: Id)
    requires !Pays(v, id)
    ensures StakerGain(v, part, id) == 0
  {
    var net := NetOf(v, part);
    NoDelegation(v.delegations, if net < 0 then 0 else net, EligibleOf(v), id);
  }

  /** Accounts that are neither validator nor delegator get nothing. */
  lemma {:induction false} NoStaker(active: seq<Staker>, reward: nat, total: nat, id: Id)
    requires total > 0 && forall j :: 0 <= j < |active| ==> !Pays(active[j], id)
    ensures Gain(active, reward, total, id) == 0
  {
    if active != [] {
      Unpaid(active[0], PartOf(active[0], reward, total), id);
      NoStaker(active[1..], reward, total, id);
    }
  }

  /** What a distribution is about: sane validators with stake, and amounts that fit. */
  ghost predicate Regular(l: Ledger, active: seq<Staker>, rewardPerEpoch: nat) {
    && AllSane(active) && Total(l) <= MAX_U128 && Sum(StakesOf(active)) > 0
    && AllFit(active, Min(rewardPerEpoch, BalanceOf(l, STAKING_POOL_ADDRESS)), Sum(StakesOf(active)))
  }

  /** A validator that is paid once gains its part of the reward less its delegators' net. */
  lemma ValidatorPaid(l: Ledger, active: seq<Staker>, rewardPerEpoch: nat, i: nat) returns (part: nat, pool: nat, net: nat)
    requires Regular(l, active, rewardPerEpoch) && i < |active| && active[i].totalStake > 0
    requires active[i].id in l.accounts && active[i].id != STAKING_POOL_ADDRESS
    requires forall j :: 0 <= j < |active| && j != i ==> !Pays(active[j], active[i].id)
    requires forall j :: 0 <= j < |active[i].delegations| ==> active[i].delegations[j].delegator != active[i].id
    ensures FairSplit(active[i], Min(rewardPerEpoch, BalanceOf(l, STAKING_POOL_ADDRESS)), Sum(StakesOf(active)), part, pool, net)
    ensures BalanceOf(Distributed(l, active, rewardPerEpoch), active[i].id) == BalanceOf(l, active[i].id) + part - net
  {
    var v, total := active[i], Sum(StakesOf(active));
    var reward := Min(rewardPerEpoch, BalanceOf(l, STAKING_POOL_ADDRESS));
    SplitIsFair(v, reward, total);
    part := PartOf(v, reward, total);
    pool, net := PoolOf(v, part), NetOf(v, part);
    DistributedExact(l, active, rewardPerEpoch, v.id);
    OneStaker(active, reward, total, v.id, i);
    NoDelegation(v.delegations, net, EligibleOf(v), v.id);
  }

  /** A delegator that is paid once gains its share of the net, rounded down. */
  lemma DelegatorPaid(l: Ledger, active: seq<Staker>, rewardPerEpoch: nat, i: nat, k: nat)
    returns (part: nat, pool: nat, net: nat, gain: nat)
    requires Regular(l, active, rewardPerEpoch) && i < |active| && k < |active[i].delegations|
    requires EligibleOf(active[i]) > 0
    requires var id := active[i].delegations[k].delegator;
      && id in l.accounts && id != STAKING_POOL_ADDRESS && id != active[i].id
      && (forall j :: 0 <= j < |active| && j != i ==> !Pays(active[j], id))
      && (forall j :: 0 <= j < |active[i].delegations| && j != k ==> active[i].delegations[j].delegator != id)
    ensures FairSplit(active[i], Min(rewardPerEpoch, BalanceOf(l, STAKING_POOL_ADDRESS)), Sum(StakesOf(active)), part, pool, net)
    ensures var eligible, amount := EligibleOf(active[i]), active[i].delegations[k].amount;
      eligible * gain <= net * amount < eligible * (gain + 1)
    ensures var id := active[i].delegations[k].delegator;
      BalanceOf(Distributed(l, active, rewardPerEpoch), id) == BalanceOf(l, id) + gain
  {
    var v, total := active[i], Sum(StakesOf(active));
    var id, reward := v.delegations[k].delegator, Min(rewardPerEpoch, BalanceOf(l, STAKING_POOL_ADDRESS));
    assert Sane(v);
    SplitIsFair(v, reward, total);
    part := PartOf(v, reward, total);
    pool, net := PoolOf(v, part), NetOf(v, part);
    gain := SoleDelegation(v, part, k);
    DistributedExact(l, active, rewardPerEpoch, id);
    OneStaker(active, reward, total, id, i);
  }

  lemma SoleDelegation(v: Staker, part: nat, k: nat) returns (gain: nat)
    requires k < |v.delegations| && EligibleOf(v) > 0 && NetOf(v, part) >= 0 && v.delegations[k].delegator != v.id
    requires forall j :: 0 <= j < |v.delegations| && j != k ==> v.delegations[j].delegator != v.delegations[k].delegator
    ensures StakerGain(v, part, v.delegations[k].delegator) == gain
    ensures EligibleOf(v) * gain <= NetOf(v, part) * v.delegations[k].amount < EligibleOf(v) * (gain + 1)
  {
    var net, amount := NetOf(v, part), v.delegations[k].amount;
    gain := net * amount / EligibleOf(v);
    FloorIs(net * amount, EligibleOf(v));
    OneDelegation(v.delegations, net, EligibleOf(v), k);
  }

  /** The staking pool pays exactly the reward; whoever is not owed anything keeps what they
      have. */
  lemma OthersKeep(l: Ledger, active: seq<Staker>, rewardPerEpoch: nat, id: Id)
    requires Regular(l, active, rewardPerEpoch) && id in l.accounts
    requires forall j :: 0 <= j < |active| ==> !Pays(active[j], id)
    ensures var r := Distributed(l, active, rewardPerEpoch);
      BalanceOf(r, id) == BalanceOf(l, id) -
        if id == STAKING_POOL_ADDRESS then Min(rewardPerEpoch, BalanceOf(l, STAKING_POOL_ADDRESS)) else 0
  {
    DistributedExact(l, active, rewardPerEpoch, id);
    NoStaker(active, Min(rewardPerEpoch, BalanceOf(l, STAKING_POOL_ADDRESS)), Sum(StakesOf(active)), id);
  }
}
