/** The epoch boundary: stakes are raised, then the validator set is brought in line with
    the staking list, at most a third of the stake per epoch. */
module EpochTransition {
  import opened Types
  import opened Validators

  const BASE_REWARD: nat := 100

  /** An entry of the staking contract. */
  datatype Stake = Stake(id: Id, total: nat, isActive: bool)

  predicate IsBoundary(height: nat) { height > 0 && height % EPOCH_LENGTH == 0 }

  function ActiveCount(vs: seq<ValidatorInfo>): nat { |ActiveOf(vs)| }

  function ActiveStake(vs: seq<ValidatorInfo>): nat { TotalStake(ActiveOf(vs)) }

  function AbsDiff(a: nat, b: nat): nat { if a < b then b - a else a - b }

  // ---------- Raising stakes ----------

  function Raise(vs: seq<ValidatorInfo>, v: ValidatorInfo, reward: nat, total: nat): seq<ValidatorInfo>
    requires total > 0
  {
    match IndexOf(vs, v.id)
    case Some(i) => if v.status.Active? then vs[i := vs[i].(stake := vs[i].stake + reward * vs[i].stake / total)] else vs
    case None => vs
  }

  function RaiseAll(vs: seq<ValidatorInfo>, todo: seq<ValidatorInfo>, reward: nat, total: nat): seq<ValidatorInfo>
    requires total > 0
    decreases |todo|
  {
    if todo == [] then vs else RaiseAll(Raise(vs, todo[0], reward, total), todo[1..], reward, total)
  }

  /** `process_epoch_transition` */
  function Raised(vs: seq<ValidatorInfo>): seq<ValidatorInfo> {
    if ActiveStake(vs) == 0 then vs else RaiseAll(vs, vs, BASE_REWARD * ActiveCount(vs), ActiveStake(vs))
  }

  function RaisedOne(v: ValidatorInfo, reward: nat, total: nat): ValidatorInfo
    requires total > 0
  {
    if v.status.Active? then v.(stake := v.stake + reward * v.stake / total) else v
  }

  /** With distinct identities every active validator is raised once, on its own stake. */
  lemma {:induction false} RaiseAllAt(vs: seq<ValidatorInfo>, done: seq<ValidatorInfo>, k: nat, reward: nat, total: nat, i: nat)
    requires DistinctIds(vs) && total > 0 && k <= |vs| && |done| == |vs| && i < |vs|
    requires forall j :: 0 <= j < k ==> done[j] == RaisedOne(vs[j], reward, total)
    requires forall j :: k <= j < |vs| ==> done[j] == vs[j]
    ensures var r := RaiseAll(done, vs[k..], reward, total);
      |r| == |vs| && r[i] == RaisedOne(vs[i], reward, total)
    decreases |vs| - k
  {
    if k < |vs| {
      var next := Raise(done, vs[k], reward, total);
      assert vs[k..][1..] == vs[k + 1..];
      assert IndexOf(done, vs[k].id) == Some(k) by {
        assert done[k].id == vs[k].id;
        assert forall j :: 0 <= j < k ==> done[j].id == vs[j].id;
      }
      RaiseAllAt(vs, next, k + 1, reward, total, i);
    }
  }

  lemma RaisedAt(vs: seq<ValidatorInfo>, i: nat)
    requires DistinctIds(vs) && i < |vs|
    ensures |Raised(vs)| == |vs|
    ensures Raised(vs)[i] == if ActiveStake(vs) == 0 then vs[i]
                             else RaisedOne(vs[i], BASE_REWARD * ActiveCount(vs), ActiveStake(vs))
  {
    if ActiveStake(vs) != 0 {
      assert vs[0..] == vs;
      RaiseAllAt(vs, vs, 0, BASE_REWARD * ActiveCount(vs), ActiveStake(vs), i);
    }
  }

  /** Each active validator gains its part, by stake and rounded down, of 100 for each active
      validator; the others keep their stake. */
  lemma RaiseFair(vs: seq<ValidatorInfo>, i: nat)
    requires DistinctIds(vs) && i < |vs| && ActiveStake(vs) > 0
    ensures |Raised(vs)| == |vs| && Raised(vs)[i].stake >= vs[i].stake
    ensures var gain, total := Raised(vs)[i].stake - vs[i].stake, ActiveStake(vs);
      if vs[i].status.Active? then total * gain <= 100 * ActiveCount(vs) * vs[i].stake < total * (gain + 1) else gain == 0
  {
    RaisedAt(vs, i);
    FloorIs(BASE_REWARD * ActiveCount(vs) * vs[i].stake, ActiveStake(vs));
  }

  lemma FloorIs(a: nat, t: nat)
    requires t > 0
    ensures t * (a / t) <= a < t * (a / t + 1)
  {
  }

  // ---------- Bringing the set in line ----------

  /** `changed` is the running total the cap is compared with; `moved` is the stake of
      the validators admitted or removed so far. */
  datatype Sync = Sync(vs: seq<ValidatorInfo>, changed: nat, moved: nat)

  function Cap(vs: seq<ValidatorInfo>): nat { if ActiveCount(vs) >= 4 then ActiveStake(vs) / 3 else MAX_U128 }

  /** A cap of zero does not limit. */
  predicate OverCap(changed: nat, stake: nat, cap: nat) { SatAdd(changed, stake) > cap && cap > 0 }

  function Refreshed(v: ValidatorInfo, stake: nat): ValidatorInfo {
    if v.status.Active? then v.(stake := stake) else v.(stake := stake, status := Active, missedBlocks := 0)
  }

  function Admit(s: Sync, sv: Stake, cap: nat): Sync {
    if !sv.isActive then s
    else
      match IndexOf(s.vs, sv.id)
      case Some(i) =>
        s.(vs := s.vs[i := Refreshed(s.vs[i], sv.total)], changed := SatAdd(s.changed, AbsDiff(sv.total, s.vs[i].stake)))
      case None =>
        if OverCap(s.changed, sv.total, cap) then s
        else Sync(s.vs + [ValidatorInfo(sv.id, sv.total, Active, 0)], SatAdd(s.changed, sv.total), s.moved + sv.total)
  }

  function AdmitAll(s: Sync, staking: seq<Stake>, cap: nat): Sync
    decreases |staking|
  {
    if staking == [] then s else AdmitAll(Admit(s, staking[0], cap), staking[1..], cap)
  }

  predicate Stays(staking: seq<Stake>, id: Id) {
    exists i :: 0 <= i < |staking| && staking[i].isActive && staking[i].id == id
  }

  /** Validators that left staking, in order. */
  function Leavers(vs: seq<ValidatorInfo>, staking: seq<Stake>): seq<ValidatorInfo> {
    if vs == [] then []
    else (if Stays(staking, vs[0].id) then [] else [vs[0]]) + Leavers(vs[1..], staking)
  }

  function Drop(s: Sync, v: ValidatorInfo, cap: nat): Sync {
    if OverCap(s.changed, v.stake, cap) then s
    else Sync(Without(s.vs, v.id), SatAdd(s.changed, v.stake), s.moved + v.stake)
  }

  function DropAll(s: Sync, leavers: seq<ValidatorInfo>, cap: nat): Sync
    decreases |leavers|
  {
    if leavers == [] then s else DropAll(Drop(s, leavers[0], cap), leavers[1..], cap)
  }

  /** The sync part of `try_epoch_transition`. */
  function Synced(vs: seq<ValidatorInfo>, staking: seq<Stake>): Sync {
    var s := AdmitAll(Sync(vs, 0, 0), staking, Cap(vs));
    DropAll(s, Leavers(s.vs, staking), Cap(vs))
  }

  // ---------- The change limit ----------

  /** What has moved is within the cap, and counted in the running total. */
  predicate CapRespected(s: Sync, cap: nat) { s.moved <= cap && s.moved <= s.changed }

  lemma {:induction false} AdmitWithin(s: Sync, staking: seq<Stake>, cap: nat)
    requires 0 < cap < MAX_U128 && CapRespected(s, cap)
    ensures CapRespected(AdmitAll(s, staking, cap), cap)
    decreases |staking|
  {
    if staking != [] { AdmitWithin(Admit(s, staking[0], cap), staking[1..], cap); }
  }

  lemma {:induction false} DropWithin(s: Sync, leavers: seq<ValidatorInfo>, cap: nat)
    requires 0 < cap < MAX_U128 && CapRespected(s, cap)
    ensures CapRespected(DropAll(s, leavers, cap), cap)
    decreases |leavers|
  {
    if leavers != [] { DropWithin(Drop(s, leavers[0], cap), leavers[1..], cap); }
  }

  /** With at least four active validators and an active stake of at least 3, whatever
      the staking list holds, the stake of admitted and removed validators together is
      at most a third of the active stake at the start of the sync. */
  lemma ChangeBounded(vs: seq<ValidatorInfo>, staking: seq<Stake>)
    requires ActiveCount(vs) >= 4 && 3 <= ActiveStake(vs) <= MAX_U128
    ensures Synced(vs, staking).moved * 3 <= ActiveStake(vs)
  {
    var cap := Cap(vs);
    AdmitWithin(Sync(vs, 0, 0), staking, cap);
    var s := AdmitAll(Sync(vs, 0, 0), staking, cap);
    DropWithin(s, Leavers(s.vs, staking), cap);
  }

  // ---------- Identities stay distinct ----------

  lemma {:induction false} WithoutDistinct(vs: seq<ValidatorInfo>, id: Id)
    requires DistinctIds(vs)
    ensures DistinctIds(Without(vs, id))
  {
    if vs != [] {
      WithoutDistinct(vs[1..], id);
      var rest := Without(vs[1..], id);
      forall j | 0 <= j < |rest| ensures rest[j].id != vs[0].id {
        assert rest[j] in vs[1..];
        var k :| 0 <= k < |vs[1..]| && vs[1..][k] == rest[j];
        assert vs[k + 1] == rest[j];
      }
    }
  }

  lemma {:induction false} AdmitDistinct(s: Sync, staking: seq<Stake>, cap: nat)
    requires DistinctIds(s.vs)
    ensures DistinctIds(AdmitAll(s, staking, cap).vs)
    decreases |staking|
  {
    if staking != [] { AdmitDistinct(Admit(s, staking[0], cap), staking[1..], cap); }
  }

  lemma {:induction false} DropDistinct(s: Sync, leavers: seq<ValidatorInfo>, cap: nat)
    requires DistinctIds(s.vs)
    ensures DistinctIds(DropAll(s, leavers, cap).vs)
    decreases |leavers|
  {
    if leavers != [] {
      WithoutDistinct(s.vs, leavers[0].id);
      DropDistinct(Drop(s, leavers[0], cap), leavers[1..], cap);
    }
  }

  lemma {:induction false} RaiseDistinct(vs: seq<ValidatorInfo>, todo: seq<ValidatorInfo>, reward: nat, total: nat)
    requires total > 0 && DistinctIds(vs)
    ensures DistinctIds(RaiseAll(vs, todo, reward, total))
    decreases |todo|
  {
    if todo != [] { RaiseDistinct(Raise(vs, todo[0], reward, total), todo[1..], reward, total); }
  }

  /** A whole transition keeps identities distinct, for every staking list, repeated
      entries included. */
  lemma TransitionDistinct(vs: seq<ValidatorInfo>, staking: seq<Stake>)
    requires DistinctIds(vs)
    ensures DistinctIds(Synced(Raised(vs), staking).vs)
  {
    if ActiveStake(vs) != 0 { RaiseDistinct(vs, vs, BASE_REWARD * ActiveCount(vs), ActiveStake(vs)); }
    var r := Raised(vs);
    AdmitDistinct(Sync(r, 0, 0), staking, Cap(r));
    var s := AdmitAll(Sync(r, 0, 0), staking, Cap(r));
    DropDistinct(s, Leavers(s.vs, staking), Cap(r));
  }

  // ---------- Without a limit the set becomes the staking list ----------

  /** Nothing is deferred: the set is small, or the cap rounds down to zero. */
  predicate Unlimited(cap: nat) { cap == 0 || cap == MAX_U128 }

  predicate Holds(vs: seq<ValidatorInfo>, id: Id) { exists i :: 0 <= i < |vs| && vs[i].id == id }

  lemma AdmitHolds(s: Sync, sv: Stake, cap: nat, id: Id)
    requires Unlimited(cap)
    ensures Holds(Admit(s, sv, cap).vs, id) <==> Holds(s.vs, id) || (sv.isActive && sv.id == id)
  {
    var r := Admit(s, sv, cap).vs;
    if sv.isActive {
      match IndexOf(s.vs, sv.id)
      case Some(i) =>
        assert r[i].id == sv.id;
        if j :| 0 <= j < |s.vs| && s.vs[j].id == id { assert r[j].id == id; }
        if j :| 0 <= j < |r| && r[j].id == id { assert s.vs[j].id == id; }
      case None =>
        assert r[|s.vs|].id == sv.id;
        if j :| 0 <= j < |s.vs| && s.vs[j].id == id { assert r[j].id == id; }
        if j :| 0 <= j < |r| && r[j].id == id { assert j < |s.vs| ==> s.vs[j].id == id; }
    }
  }

  lemma {:induction false} AdmitAllHolds(s: Sync, staking: seq<Stake>, cap: nat, id: Id)
    requires Unlimited(cap)
    ensures Holds(AdmitAll(s, staking, cap).vs, id) <==> Holds(s.vs, id) || Stays(staking, id)
    decreases |staking|
  {
    if staking != [] {
      AdmitHolds(s, staking[0], cap, id);
      AdmitAllHolds(Admit(s, staking[0], cap), staking[1..], cap, id);
      if Stays(staking[1..], id) {
        var i :| 0 <= i < |staking[1..]| && staking[1..][i].isActive && staking[1..][i].id == id;
        assert staking[i + 1].isActive && staking[i + 1].id == id;
      }
    }
  }

  lemma WithoutHolds(vs: seq<ValidatorInfo>, gone: Id, id: Id)
    ensures Holds(Without(vs, gone), id) <==> Holds(vs, id) && id != gone
  {
  }

  lemma {:induction false} DropAllHolds(s: Sync, leavers: seq<ValidatorInfo>, cap: nat, id: Id)
    requires Unlimited(cap)
    ensures Holds(DropAll(s, leavers, cap).vs, id) <==> Holds(s.vs, id) && !Holds(leavers, id)
    decreases |leavers|
  {
    if leavers != [] {
      WithoutHolds(s.vs, leavers[0].id, id);
      DropAllHolds(Drop(s, leavers[0], cap), leavers[1..], cap, id);
      if Holds(leavers[1..], id) {
        var i :| 0 <= i < |leavers[1..]| && leavers[1..][i].id == id;
        assert leavers[i + 1].id == id;
      }
      if i :| 0 < i < |leavers| && leavers[i].id == id { assert leavers[1..][i - 1].id == id; }
    }
  }

  lemma {:induction false} LeaversHold(vs: seq<ValidatorInfo>, staking: seq<Stake>, id: Id)
    ensures Holds(Leavers(vs, staking), id) <==> Holds(vs, id) && !Stays(staking, id)
  {
    if vs != [] {
      LeaversHold(vs[1..], staking, id);
      var first := if Stays(staking, vs[0].id) then [] else [vs[0]];
      var rest := Leavers(vs[1..], staking);
      HoldsAppend(first, rest, id);
      assert vs == [vs[0]] + vs[1..];
      HoldsAppend([vs[0]], vs[1..], id);
      assert Holds([vs[0]], id) <==> vs[0].id == id by { assert [vs[0]][0] == vs[0]; }
      assert first == [] ==> !Holds(first, id);
    }
  }

  lemma HoldsAppend(a: seq<ValidatorInfo>, b: seq<ValidatorInfo>, id: Id)
    ensures Holds(a + b, id) <==> Holds(a, id) || Holds(b, id)
  {
    if i :| 0 <= i < |a| && a[i].id == id { assert (a + b)[i].id == id; }
    if i :| 0 <= i < |b| && b[i].id == id { assert (a + b)[|a| + i].id == id; }
    if i :| 0 <= i < |a + b| && (a + b)[i].id == id {
      assert if i < |a| then a[i].id == id else b[i - |a|].id == id;
    }
  }

  /** While bootstrapping with fewer than four active validators, one transition makes
      the set hold exactly the active entries of the staking list. */
  lemma BootstrapMatches(vs: seq<ValidatorInfo>, staking: seq<Stake>, id: Id)
    requires Unlimited(Cap(vs))
    ensures Holds(Synced(vs, staking).vs, id) <==> Stays(staking, id)
  {
    var s := AdmitAll(Sync(vs, 0, 0), staking, Cap(vs));
    AdmitAllHolds(Sync(vs, 0, 0), staking, Cap(vs), id);
    LeaversHold(s.vs, staking, id);
    DropAllHolds(s, Leavers(s.vs, staking), Cap(vs), id);
  }

  /** The stake in the last active entry with this identity. */
  function LastListed(staking: seq<Stake>, id: Id): Option<nat> {
    if staking == [] then None
    else if LastListed(staking[1..], id).Some? then LastListed(staking[1..], id)
    else if staking[0].isActive && staking[0].id == id then Some(staking[0].total)
    else None
  }

  lemma AdmitOne(s: Sync, sv: Stake, cap: nat, v: ValidatorInfo)
    requires DistinctIds(s.vs) && v in Admit(s, sv, cap).vs
    ensures DistinctIds(Admit(s, sv, cap).vs)
    ensures if sv.isActive && sv.id == v.id then v.stake == sv.total && v.status.Active? else v in s.vs
  {
  }

  /** Whatever is in the set after the additions carries its last listed stake and is
      active, or was there before and is not listed. */
  lemma {:induction false} AdmitAgrees(s: Sync, staking: seq<Stake>, cap: nat, v: ValidatorInfo)
    requires DistinctIds(s.vs) && v in AdmitAll(s, staking, cap).vs
    ensures match LastListed(staking, v.id)
      case Some(stake) => v.stake == stake && v.status.Active?
      case None => v in s.vs
    decreases |staking|
  {
    if staking != [] {
      var r := Admit(s, staking[0], cap);
      AdmitKeepsIds(s, staking[0], cap);
      AdmitAgrees(r, staking[1..], cap, v);
      if LastListed(staking[1..], v.id).None? { AdmitOne(s, staking[0], cap, v); }
    }
  }

  lemma AdmitKeepsIds(s: Sync, sv: Stake, cap: nat)
    requires DistinctIds(s.vs)
    ensures DistinctIds(Admit(s, sv, cap).vs)
  {
  }

  lemma {:induction false} DropKeeps(s: Sync, leavers: seq<ValidatorInfo>, cap: nat, v: ValidatorInfo)
    requires v in DropAll(s, leavers, cap).vs
    ensures v in s.vs
    decreases |leavers|
  {
    if leavers != [] { DropKeeps(Drop(s, leavers[0], cap), leavers[1..], cap, v); }
  }

  /** After a transition every validator that is active in staking has the stake of its
      last entry there and is active again, jailed or not before; for every staking list. */
  lemma SyncAgrees(vs: seq<ValidatorInfo>, staking: seq<Stake>, v: ValidatorInfo)
    requires DistinctIds(vs) && v in Synced(vs, staking).vs && Stays(staking, v.id)
    ensures LastListed(staking, v.id) == Some(v.stake) && v.status.Active?
  {
    var s := AdmitAll(Sync(vs, 0, 0), staking, Cap(vs));
    DropKeeps(s, Leavers(s.vs, staking), Cap(vs), v);
    AdmitAgrees(Sync(vs, 0, 0), staking, Cap(vs), v);
    StaysListed(staking, v.id);
  }

  /** The missed-block count a validator brings into an epoch: its own while it is active,
      and none if it was not, or is new. */
  function Carried(vs: seq<ValidatorInfo>, id: Id): nat {
    match IndexOf(vs, id)
    case Some(i) => if vs[i].status.Active? then vs[i].missedBlocks else 0
    case None => 0
  }

  lemma FoundBy(vs: seq<ValidatorInfo>, v: ValidatorInfo)
    requires DistinctIds(vs) && v in vs
    ensures IndexOf(vs, v.id).Some? && vs[IndexOf(vs, v.id).value] == v
  {
    var i :| 0 <= i < |vs| && vs[i] == v;
    var k := IndexOf(vs, v.id).value;
    assert ById(vs[k]) == ById(vs[i]);
  }

  lemma AdmitCarries(s: Sync, sv: Stake, cap: nat, id: Id)
    requires DistinctIds(s.vs)
    ensures Carried(Admit(s, sv, cap).vs, id) == Carried(s.vs, id)
  {
    var r := Admit(s, sv, cap).vs;
    AdmitKeepsIds(s, sv, cap);
    match IndexOf(r, id) {
      case None =>
        if i :| 0 <= i < |s.vs| && s.vs[i].id == id { assert r[i].id == id; }
      case Some(k) =>
        AdmitOne(s, sv, cap, r[k]);
        if r[k] in s.vs { FoundBy(s.vs, r[k]); }
    }
  }

  lemma {:induction false} AdmitAllCarries(s: Sync, staking: seq<Stake>, cap: nat, id: Id)
    requires DistinctIds(s.vs)
    ensures Carried(AdmitAll(s, staking, cap).vs, id) == Carried(s.vs, id)
    decreases |staking|
  {
    if staking != [] {
      AdmitKeepsIds(s, staking[0], cap);
      AdmitCarries(s, staking[0], cap, id);
      AdmitAllCarries(Admit(s, staking[0], cap), staking[1..], cap, id);
    }
  }

  /** A validator that a transition brings back, or in, starts without missed blocks; one
      that was active keeps its count. */
  lemma MissedCarried(vs: seq<ValidatorInfo>, staking: seq<Stake>, v: ValidatorInfo)
    requires DistinctIds(vs) && v in Synced(vs, staking).vs && v.status.Active?
    ensures v.missedBlocks == Carried(vs, v.id)
  {
    var s := AdmitAll(Sync(vs, 0, 0), staking, Cap(vs));
    DropKeeps(s, Leavers(s.vs, staking), Cap(vs), v);
    AdmitDistinct(Sync(vs, 0, 0), staking, Cap(vs));
    AdmitAllCarries(Sync(vs, 0, 0), staking, Cap(vs), v.id);
    FoundBy(s.vs, v);
  }

  lemma {:induction false} StaysListed(staking: seq<Stake>, id: Id)
    requires Stays(staking, id)
    ensures LastListed(staking, id).Some?
  {
    var i :| 0 <= i < |staking| && staking[i].isActive && staking[i].id == id;
    if i > 0 {
      assert staking[1..][i - 1] == staking[i];
      StaysListed(staking[1..], id);
    }
  }

  // ---------- The transition in place ----------

  class EpochManager {
    var currentEpoch: nat

    constructor ()
      ensures currentEpoch == 0
    {
      currentEpoch := 0;
    }

    /** Raises the stake of every active validator and moves to the next epoch. */
    method ProcessTransition(members: ValidatorSet)
      modifies this, members
      ensures currentEpoch == old(currentEpoch) + 1 && members.validators == Raised(old(members.validators))
    {
      var total := ActiveStake(members.validators);
      if total > 0 {
        var reward := BASE_REWARD * ActiveCount(members.validators);
        var todo := members.validators;
        while todo != []
          invariant RaiseAll(members.validators, todo, reward, total) == Raised(old(members.validators))
          invariant currentEpoch == old(currentEpoch)
          decreases |todo|
        {
          var v := todo[0];
          if v.status.Active? {
            match IndexOf(members.validators, v.id) {
              case None =>
              case Some(i) =>
                var vm := members.validators[i];
                members.validators := members.validators[i := vm.(stake := vm.stake + reward * vm.stake / total)];
            }
          }
          todo := todo[1..];
        }
      }
      currentEpoch := currentEpoch + 1;
    }
  }

  /** `try_epoch_transition` */
  method TryEpochTransition(em: EpochManager, members: ValidatorSet, staking: seq<Stake>, height: nat)
    modifies em, members
    ensures height == 0 || height % 100 != 0 ==>
              members.validators == old(members.validators) && em.currentEpoch == old(em.currentEpoch)
    ensures height > 0 && height % 100 == 0 ==>
              && members.validators == Synced(Raised(old(members.validators)), staking).vs
              && em.currentEpoch == old(em.currentEpoch) + 1
  {
    if !IsBoundary(height) { return; }
    em.ProcessTransition(members);
    var cap := Cap(members.validators);
    var changed: nat := 0;
    ghost var goal := Synced(members.validators, staking);
    ghost var epoch := em.currentEpoch;
    ghost var moved: nat := 0;
    ghost var admitted := AdmitAll(Sync(members.validators, 0, 0), staking, cap);
    var todo := staking;
    while todo != []
      invariant AdmitAll(Sync(members.validators, changed, moved), todo, cap) == admitted
      invariant em.currentEpoch == epoch
      decreases |todo|
    {
      var sv := todo[0];
      moved := Admit(Sync(members.validators, changed, moved), sv, cap).moved;
      if sv.isActive {
        match IndexOf(members.validators, sv.id) {
          case Some(i) =>
            var v := members.validators[i];
            members.validators := members.validators[i := Refreshed(v, sv.total)];
            changed := SatAdd(changed, AbsDiff(sv.total, v.stake));
          case None =>
            if !OverCap(changed, sv.total, cap) {
              changed := SatAdd(changed, sv.total);
              members.Add(ValidatorInfo(sv.id, sv.total, Active, 0));
            }
        }
      }
      todo := todo[1..];
    }
    var leavers := Leavers(members.validators, staking);
    while leavers != []
      invariant DropAll(Sync(members.validators, changed, moved), leavers, cap) == goal
      invariant em.currentEpoch == epoch
      decreases |leavers|
    {
      var v := leavers[0];
      moved := Drop(Sync(members.validators, changed, moved), v, cap).moved;
      if !OverCap(changed, v.stake, cap) {
        changed := SatAdd(changed, v.stake);
        members.Remove(v.id);
      }
      leavers := leavers[1..];
    }
  }
}
