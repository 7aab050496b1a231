/** The change limit read off the validator sets themselves. */
module Turnover {
  import opened Types
  import opened Validators
  import opened EpochTransition

  function IdsOf(vs: seq<ValidatorInfo>): set<Id> { set v | v in vs :: v.id }

  lemma {:induction false} StakeOfApart(vs: seq<ValidatorInfo>, ids: set<Id>)
    requires ids !! IdsOf(vs)
    ensures StakeOf(vs, ids) == 0
  {
    if vs != [] {
      assert vs[0] in vs && forall v :: v in vs[1..] ==> v in vs;
      StakeOfApart(vs[1..], ids);
    }
  }

  lemma {:induction false} StakeOfAppend(vs: seq<ValidatorInfo>, v: ValidatorInfo, ids: set<Id>)
    ensures StakeOf(vs + [v], ids) == StakeOf(vs, ids) + if v.id in ids then v.stake else 0
  {
    if vs != [] {
      assert (vs + [v])[1..] == vs[1..] + [v];
      StakeOfAppend(vs[1..], v, ids);
    }
  }

  /** Rewriting an entry outside `ids` does not show in their stake. */
  lemma {:induction false} StakeOfUpdate(vs: seq<ValidatorInfo>, i: nat, w: ValidatorInfo, ids: set<Id>)
    requires i < |vs| && w.id == vs[i].id && w.id !in ids
    ensures StakeOf(vs[i := w], ids) == StakeOf(vs, ids)
  {
    if i > 0 {
      assert vs[i := w][1..] == vs[1..][i - 1 := w];
      StakeOfUpdate(vs[1..], i - 1, w, ids);
    } else {
      assert vs[i := w][1..] == vs[1..];
    }
  }

  lemma {:induction false} StakeOfOne(vs: seq<ValidatorInfo>, v: ValidatorInfo)
    requires DistinctIds(vs) && v in vs
    ensures StakeOf(vs, {v.id}) == v.stake
  {
    var rest := vs[1..];
    if v == vs[0] {
      forall w | w in rest ensures w.id != v.id {
        var k :| 0 <= k < |rest| && rest[k] == w;
        assert vs[k + 1] == w;
      }
      StakeOfApart(rest, {v.id});
    } else {
      assert v in rest;
      var k :| 0 <= k < |rest| && rest[k] == v;
      assert vs[k + 1] == v;
      StakeOfOne(rest, v);
    }
  }

  ghost predicate DistinctStakes(staking: seq<Stake>) {
    forall i, j :: 0 <= i < j < |staking| ==> staking[i].id != staking[j].id
  }

  /** So far, `moved` is the stake of the newcomers, none of whom is listed again. */
  ghost predicate Counts(s: Sync, base: set<Id>, todo: seq<Stake>) {
    && s.moved == StakeOf(s.vs, IdsOf(s.vs) - base)
    && forall i :: 0 <= i < |todo| ==> todo[i].id !in IdsOf(s.vs) - base
  }

  lemma AdmitCounts(s: Sync, sv: Stake, rest: seq<Stake>, cap: nat, base: set<Id>)
    requires Counts(s, base, [sv] + rest) && base <= IdsOf(s.vs)
    requires forall i :: 0 <= i < |rest| ==> rest[i].id != sv.id
    ensures Counts(Admit(s, sv, cap), base, rest) && base <= IdsOf(Admit(s, sv, cap).vs)
  {
    var r := Admit(s, sv, cap);
    assert forall i :: 0 <= i < |rest| ==> ([sv] + rest)[i + 1] == rest[i];
    assert ([sv] + rest)[0] == sv;
    if r != s {
      match IndexOf(s.vs, sv.id)
      case Some(i) =>
        UpdateIds(s.vs, i, r.vs[i]);
        assert s.vs[i] in s.vs;
        StakeOfUpdate(s.vs, i, r.vs[i], IdsOf(s.vs) - base);
      case None =>
        var v := r.vs[|s.vs|];
        AppendIds(s.vs, v);
        assert v.id !in IdsOf(s.vs);
        StakeOfAppend(s.vs, v, IdsOf(r.vs) - base);
        assert IdsOf(r.vs) - base == (IdsOf(s.vs) - base) + {v.id};
        StakeModular(s.vs, IdsOf(s.vs) - base, {v.id});
        StakeOfApart(s.vs, {v.id});
        StakeOfApart(s.vs, (IdsOf(s.vs) - base) * {v.id});
    }
  }

  lemma UpdateIds(vs: seq<ValidatorInfo>, i: nat, w: ValidatorInfo)
    requires i < |vs| && w.id == vs[i].id
    ensures IdsOf(vs[i := w]) == IdsOf(vs)
  {
    var u := vs[i := w];
    forall id ensures id in IdsOf(u) <==> id in IdsOf(vs) {
      if v :| v in vs && v.id == id {
        var k :| 0 <= k < |vs| && vs[k] == v;
        assert u[k] in u && u[k].id == id;
      }
      if v :| v in u && v.id == id {
        var k :| 0 <= k < |u| && u[k] == v;
        assert vs[k] in vs && vs[k].id == id;
      }
    }
  }

  lemma AppendIds(vs: seq<ValidatorInfo>, v: ValidatorInfo)
    ensures IdsOf(vs + [v]) == IdsOf(vs) + {v.id}
  {
  }

  lemma {:induction false} AdmitAllCounts(s: Sync, staking: seq<Stake>, cap: nat, base: set<Id>)
    requires DistinctStakes(staking) && Counts(s, base, staking) && base <= IdsOf(s.vs)
    ensures var r := AdmitAll(s, staking, cap); r.moved == StakeOf(r.vs, IdsOf(r.vs) - base)
    decreases |staking|
  {
    if staking != [] {
      assert staking == [staking[0]] + staking[1..];
      AdmitCounts(s, staking[0], staking[1..], cap, base);
      AdmitAllCounts(Admit(s, staking[0], cap), staking[1..], cap, base);
    }
  }

  /** Removing validators adds, in the end, exactly the stake of those that are gone. */
  lemma {:induction false} DropAllCounts(all: seq<ValidatorInfo>, s: Sync, leavers: seq<ValidatorInfo>, cap: nat, start: nat)
    requires DistinctIds(all) && DistinctIds(leavers) && (forall v :: v in leavers ==> v in all && v.id in IdsOf(s.vs))
    requires IdsOf(s.vs) <= IdsOf(all) && s.moved == start + StakeOf(all, IdsOf(all) - IdsOf(s.vs))
    ensures var r := DropAll(s, leavers, cap);
      IdsOf(r.vs) <= IdsOf(all) && r.moved == start + StakeOf(all, IdsOf(all) - IdsOf(r.vs))
    decreases |leavers|
  {
    if leavers != [] {
      var v, r := leavers[0], Drop(s, leavers[0], cap);
      assert v in leavers;
      if r != s { DropCounts(all, s, v); }
      forall w | w in leavers[1..] ensures w in all && w.id in IdsOf(r.vs) {
        var k :| 0 <= k < |leavers[1..]| && leavers[1..][k] == w;
        assert leavers[k + 1] == w && w in leavers;
        WithoutIds(s.vs, v.id);
      }
      DropAllCounts(all, r, leavers[1..], cap, start);
    }
  }

  lemma WithoutIds(vs: seq<ValidatorInfo>, id: Id)
    ensures IdsOf(Without(vs, id)) == IdsOf(vs) - {id}
  {
  }

  lemma DropCounts(all: seq<ValidatorInfo>, s: Sync, v: ValidatorInfo)
    requires DistinctIds(all) && v in all && v.id in IdsOf(s.vs) && IdsOf(s.vs) <= IdsOf(all)
    ensures var left := IdsOf(Without(s.vs, v.id));
      left <= IdsOf(all) && StakeOf(all, IdsOf(all) - left) == StakeOf(all, IdsOf(all) - IdsOf(s.vs)) + v.stake
  {
    WithoutIds(s.vs, v.id);
    var gone, left := IdsOf(all) - IdsOf(s.vs), IdsOf(Without(s.vs, v.id));
    assert IdsOf(all) - left == gone + {v.id};
    assert gone * {v.id} == {};
    StakeModular(all, gone, {v.id});
    StakeOfOne(all, v);
    NoStake(all);
  }

  lemma {:induction false} LeaversOf(vs: seq<ValidatorInfo>, staking: seq<Stake>)
    requires DistinctIds(vs)
    ensures DistinctIds(Leavers(vs, staking)) && forall v :: v in Leavers(vs, staking) ==> v in vs
  {
    if vs != [] {
      LeaversOf(vs[1..], staking);
      var rest := Leavers(vs[1..], staking);
      forall j | 0 <= j < |rest| ensures rest[j].id != vs[0].id {
        assert rest[j] in vs[1..];
        var k :| 0 <= k < |vs[1..]| && vs[1..][k] == rest[j];
        assert vs[k + 1] == rest[j];
      }
    }
  }

  /** The limit without the counter: the stake of the validators that joined and of those
      that left, read off the sets themselves, is at most a third of the active stake. */
  lemma TurnoverBounded(vs: seq<ValidatorInfo>, staking: seq<Stake>)
    requires DistinctIds(vs) && DistinctStakes(staking)
    requires ActiveCount(vs) >= 4 && 3 <= ActiveStake(vs) <= MAX_U128
    ensures var grown := AdmitAll(Sync(vs, 0, 0), staking, Cap(vs)).vs;
      var after := Synced(vs, staking).vs;
      (StakeOf(grown, IdsOf(grown) - IdsOf(vs)) + StakeOf(grown, IdsOf(grown) - IdsOf(after))) * 3 <= ActiveStake(vs)
  {
    var cap := Cap(vs);
    var s := AdmitAll(Sync(vs, 0, 0), staking, cap);
    NoStake(vs);
    assert IdsOf(vs) - IdsOf(vs) == {};
    AdmitAllCounts(Sync(vs, 0, 0), staking, cap, IdsOf(vs));
    AdmitDistinct(Sync(vs, 0, 0), staking, cap);
    LeaversOf(s.vs, staking);
    NoStake(s.vs);
    assert IdsOf(s.vs) - IdsOf(s.vs) == {};
    DropAllCounts(s.vs, s, Leavers(s.vs, staking), cap, s.moved);
    ChangeBounded(vs, staking);
  }

  // ---------- Repeated entries ----------

  /** The least stake listed for an identity, zero if it is not listed. */
  function Least(staking: seq<Stake>, id: Id): nat {
    if staking == [] then 0
    else
      var first := staking[0];
      if !(first.isActive && first.id == id) then Least(staking[1..], id)
      else if Stays(staking[1..], id) then Min(first.total, Least(staking[1..], id))
      else first.total
  }

  lemma {:induction false} LeastIsLeast(staking: seq<Stake>, i: nat)
    requires i < |staking| && staking[i].isActive
    ensures Least(staking, staking[i].id) <= staking[i].total
  {
    if i > 0 {
      assert staking[1..][i - 1] == staking[i];
      LeastIsLeast(staking[1..], i - 1);
      assert Stays(staking[1..], staking[i].id);
    }
  }

  /** The newcomers' stakes, each counted with the least its identity is listed with. */
  function NewcomersLeast(vs: seq<ValidatorInfo>, base: set<Id>, staking: seq<Stake>): nat {
    if vs == [] then 0
    else (if vs[0].id in base then 0 else Least(staking, vs[0].id)) + NewcomersLeast(vs[1..], base, staking)
  }

  lemma {:induction false} NewcomersAppend(vs: seq<ValidatorInfo>, v: ValidatorInfo, base: set<Id>, staking: seq<Stake>)
    ensures NewcomersLeast(vs + [v], base, staking)
            == NewcomersLeast(vs, base, staking) + if v.id in base then 0 else Least(staking, v.id)
  {
    if vs != [] {
      assert (vs + [v])[1..] == vs[1..] + [v];
      NewcomersAppend(vs[1..], v, base, staking);
    }
  }

  lemma {:induction false} NewcomersUpdate(vs: seq<ValidatorInfo>, i: nat, w: ValidatorInfo, base: set<Id>,
                                           staking: seq<Stake>)
    requires i < |vs| && w.id == vs[i].id
    ensures NewcomersLeast(vs[i := w], base, staking) == NewcomersLeast(vs, base, staking)
  {
    if i > 0 {
      assert vs[i := w][1..] == vs[1..][i - 1 := w];
      NewcomersUpdate(vs[1..], i - 1, w, base, staking);
    } else {
      assert vs[i := w][1..] == vs[1..];
    }
  }

  lemma {:induction false} NoNewcomers(vs: seq<ValidatorInfo>, base: set<Id>, staking: seq<Stake>)
    requires IdsOf(vs) <= base
    ensures NewcomersLeast(vs, base, staking) == 0
  {
    if vs != [] {
      assert vs[0] in vs && forall v :: v in vs[1..] ==> v in vs;
      NoNewcomers(vs[1..], base, staking);
    }
  }

  lemma {:induction false} AdmitLeast(s: Sync, staking: seq<Stake>, k: nat, cap: nat, base: set<Id>)
    requires k <= |staking| && s.moved >= NewcomersLeast(s.vs, base, staking)
    ensures var r := AdmitAll(s, staking[k..], cap); r.moved >= NewcomersLeast(r.vs, base, staking)
    decreases |staking| - k
  {
    if k < |staking| {
      var sv := staking[k];
      assert staking[k..][1..] == staking[k + 1..];
      var r := Admit(s, sv, cap);
      if r != s {
        match IndexOf(s.vs, sv.id)
        case Some(i) => NewcomersUpdate(s.vs, i, r.vs[i], base, staking);
        case None =>
          NewcomersAppend(s.vs, r.vs[|s.vs|], base, staking);
          LeastIsLeast(staking, k);
      }
      AdmitLeast(r, staking, k + 1, cap, base);
    }
  }

  /** For every staking list, repeated entries included: the stake that left, and the least
      stake listed for each validator that joined, are together at most a third of the
      active stake. */
  lemma TurnoverLeast(vs: seq<ValidatorInfo>, staking: seq<Stake>)
    requires DistinctIds(vs) && ActiveCount(vs) >= 4 && 3 <= ActiveStake(vs) <= MAX_U128
    ensures var grown := AdmitAll(Sync(vs, 0, 0), staking, Cap(vs)).vs;
      var after := Synced(vs, staking).vs;
      (NewcomersLeast(grown, IdsOf(vs), staking) + StakeOf(grown, IdsOf(grown) - IdsOf(after))) * 3 <= ActiveStake(vs)
  {
    var cap := Cap(vs);
    var s := AdmitAll(Sync(vs, 0, 0), staking, cap);
    NoNewcomers(vs, IdsOf(vs), staking);
    assert staking[0..] == staking;
    AdmitLeast(Sync(vs, 0, 0), staking, 0, cap, IdsOf(vs));
    AdmitDistinct(Sync(vs, 0, 0), staking, cap);
    LeaversOf(s.vs, staking);
    NoStake(s.vs);
    assert IdsOf(s.vs) - IdsOf(s.vs) == {};
    DropAllCounts(s.vs, s, Leavers(s.vs, staking), cap, s.moved);
    ChangeBounded(vs, staking);
  }

  /** A second entry for a newcomer is an update, and updates are never deferred: whatever
      it lists becomes the newcomer's stake, and only the first entry is held against the cap. */
  lemma SecondEntry(s: Sync, id: Id, first: nat, second: nat, cap: nat)
    requires IndexOf(s.vs, id).None? && !OverCap(s.changed, first, cap)
    ensures var r := AdmitAll(s, [Stake(id, first, true), Stake(id, second, true)], cap);
      r.vs == s.vs + [ValidatorInfo(id, second, Active, 0)] && r.moved == s.moved + first
  {
    var a, b := Stake(id, first, true), Stake(id, second, true);
    var one := Admit(s, a, cap);
    assert [a, b][1..] == [b] && [b][1..] == [];
    assert AdmitAll(s, [a, b], cap) == AdmitAll(one, [b], cap) == AdmitAll(Admit(one, b, cap), [], cap);
    assert one.vs == s.vs + [ValidatorInfo(id, first, Active, 0)];
    assert one.vs[|s.vs|].id == id && forall j :: 0 <= j < |s.vs| ==> one.vs[j] == s.vs[j];
    assert IndexOf(one.vs, id) == Some(|s.vs|);
  }

  /** So the bound on the sets themselves does not hold with repeated entries: with a cap
      of 4 a newcomer ends with a stake of 1000. */
  lemma RepeatedEntryEscapes(vs: seq<ValidatorInfo>)
    requires DistinctIds(vs) && ActiveCount(vs) >= 4 && ActiveStake(vs) == 12 && IndexOf(vs, 9).None?
    ensures var grown := AdmitAll(Sync(vs, 0, 0), [Stake(9, 1, true), Stake(9, 1000, true)], Cap(vs)).vs;
      Cap(vs) == 4 && StakeOf(grown, IdsOf(grown) - IdsOf(vs)) == 1000
  {
    SecondEntry(Sync(vs, 0, 0), 9, 1, 1000, Cap(vs));
    var v := ValidatorInfo(9, 1000, Active, 0);
    AppendIds(vs, v);
    assert 9 !in IdsOf(vs);
    assert IdsOf(vs + [v]) - IdsOf(vs) == {9};
    StakeOfAppend(vs, v, {9});
    StakeOfApart(vs, {9});
  }

  // ---------- Changes that fit are made ----------

  function StakeIn(vs: seq<ValidatorInfo>, id: Id): nat {
    match IndexOf(vs, id)
    case Some(i) => vs[i].stake
    case None => 0
  }

  /** What the list asks to change: each entry's difference from the stake now in the set. */
  function Asked(vs: seq<ValidatorInfo>, staking: seq<Stake>): nat {
    if staking == [] then 0
    else (if staking[0].isActive then AbsDiff(staking[0].total, StakeIn(vs, staking[0].id)) else 0) + Asked(vs, staking[1..])
  }

  /** The entries still to come find the set as it was for them. */
  ghost predicate Unseen(vs: seq<ValidatorInfo>, ws: seq<ValidatorInfo>, staking: seq<Stake>) {
    forall i :: 0 <= i < |staking| && staking[i].isActive ==>
      && StakeIn(ws, staking[i].id) == StakeIn(vs, staking[i].id)
      && (IndexOf(ws, staking[i].id).None? <==> IndexOf(vs, staking[i].id).None?)
  }

  lemma AdmitElsewhere(s: Sync, sv: Stake, cap: nat, id: Id)
    requires id != sv.id
    ensures var r := Admit(s, sv, cap).vs;
      StakeIn(r, id) == StakeIn(s.vs, id) && (IndexOf(r, id).None? <==> IndexOf(s.vs, id).None?)
  {
    var r := Admit(s, sv, cap).vs;
    match IndexOf(s.vs, id) {
      case Some(i) =>
        assert r[i] == s.vs[i] && forall j :: 0 <= j < i ==> r[j].id == s.vs[j].id;
        FoundAt(r, id, i);
      case None =>
        assert forall j :: 0 <= j < |r| ==> r[j].id != id;
    }
  }

  lemma FoundAt(vs: seq<ValidatorInfo>, id: Id, i: nat)
    requires i < |vs| && vs[i].id == id && forall j :: 0 <= j < i ==> vs[j].id != id
    ensures IndexOf(vs, id) == Some(i)
  {
  }

  /** While the changes asked for fit, nothing is deferred. */
  lemma {:induction false} AdmitsAll(vs: seq<ValidatorInfo>, s: Sync, staking: seq<Stake>, cap: nat)
    requires DistinctStakes(staking) && Unseen(vs, s.vs, staking) && s.changed + Asked(vs, staking) <= cap <= MAX_U128
    ensures AdmitAll(s, staking, cap) == AdmitAll(s, staking, 0)
    ensures AdmitAll(s, staking, cap).changed == s.changed + Asked(vs, staking)
    decreases |staking|
  {
    if staking != [] {
      var sv, rest := staking[0], staking[1..];
      var r := Admit(s, sv, cap);
      assert r == Admit(s, sv, 0) && r.changed == s.changed + if sv.isActive then AbsDiff(sv.total, StakeIn(vs, sv.id)) else 0;
      assert Unseen(vs, r.vs, rest) by {
        forall i | 0 <= i < |rest| && rest[i].isActive
          ensures StakeIn(r.vs, rest[i].id) == StakeIn(vs, rest[i].id)
                  && (IndexOf(r.vs, rest[i].id).None? <==> IndexOf(vs, rest[i].id).None?)
        {
          assert rest[i] == staking[i + 1];
          if sv.isActive { AdmitElsewhere(s, sv, cap, rest[i].id); }
        }
      }
      assert DistinctStakes(rest);
      AdmitsAll(vs, r, rest, cap);
    }
  }

  /** Admitting never makes or unmakes a leaver. */
  lemma {:induction false} LeaversKept(s: Sync, staking: seq<Stake>, k: nat, cap: nat)
    requires k <= |staking|
    ensures Leavers(AdmitAll(s, staking[k..], cap).vs, staking) == Leavers(s.vs, staking)
    decreases |staking| - k
  {
    if k < |staking| {
      var sv := staking[k];
      var r := Admit(s, sv, cap);
      assert staking[k..][1..] == staking[k + 1..];
      LeaversKept(r, staking, k + 1, cap);
      if r != s {
        assert Stays(staking, sv.id);
        match IndexOf(s.vs, sv.id)
        case Some(i) => LeaversUpdate(s.vs, i, r.vs[i], staking);
        case None => LeaversAppend(s.vs, r.vs[|s.vs|], staking);
      }
    }
  }

  lemma {:induction false} LeaversUpdate(vs: seq<ValidatorInfo>, i: nat, w: ValidatorInfo, staking: seq<Stake>)
    requires i < |vs| && w.id == vs[i].id && Stays(staking, w.id)
    ensures Leavers(vs[i := w], staking) == Leavers(vs, staking)
  {
    if i > 0 {
      assert vs[i := w][1..] == vs[1..][i - 1 := w];
      LeaversUpdate(vs[1..], i - 1, w, staking);
    } else {
      assert vs[i := w][1..] == vs[1..];
    }
  }

  lemma {:induction false} LeaversAppend(vs: seq<ValidatorInfo>, w: ValidatorInfo, staking: seq<Stake>)
    requires Stays(staking, w.id)
    ensures Leavers(vs + [w], staking) == Leavers(vs, staking)
  {
    if vs == [] {
      assert ([] + [w])[1..] == [];
    } else {
      assert (vs + [w])[1..] == vs[1..] + [w];
      LeaversAppend(vs[1..], w, staking);
    }
  }

  lemma {:induction false} DropsAll(s: Sync, leavers: seq<ValidatorInfo>, cap: nat)
    requires s.changed + TotalStake(leavers) <= cap <= MAX_U128
    ensures DropAll(s, leavers, cap) == DropAll(s, leavers, 0)
    decreases |leavers|
  {
    if leavers != [] { DropsAll(Drop(s, leavers[0], cap), leavers[1..], cap); }
  }

  /** With at least four active validators: when all the changes a staking list asks for,
      newcomers, updates and leavers together, are within a third of the active stake, one
      transition makes the set hold exactly the active entries of the list. */
  lemma FittingMatches(vs: seq<ValidatorInfo>, staking: seq<Stake>, id: Id)
    requires DistinctStakes(staking) && ActiveCount(vs) >= 4 && ActiveStake(vs) <= MAX_U128
    requires (Asked(vs, staking) + TotalStake(Leavers(vs, staking))) * 3 <= ActiveStake(vs)
    ensures Holds(Synced(vs, staking).vs, id) <==> Stays(staking, id)
  {
    var start, cap := Sync(vs, 0, 0), Cap(vs);
    AdmitsAll(vs, start, staking, cap);
    var s := AdmitAll(start, staking, 0);
    assert staking[0..] == staking;
    LeaversKept(start, staking, 0, 0);
    DropsAll(s, Leavers(s.vs, staking), cap);
    AdmitAllHolds(start, staking, 0, id);
    LeaversHold(s.vs, staking, id);
    DropAllHolds(s, Leavers(s.vs, staking), 0, id);
  }
}
