/** Accounts and the rest of the executor's state, as a typed view of the state keys. */
module Ledger {
  import opened Types

  datatype Account = Account(codeHash: Hash, auth: seq<AuthMethod>, nonce: nat, balance: nat)

  /** `spent` is the running total of each session key, `burnRate` the governed burn
      rate if one is set, `tipHeight` the stored chain height, `system` the keys of the
      system contracts. */
  datatype Ledger = Ledger(
    accounts: map<Id, Account>,
    code: map<Hash, Bytes>,
    storage: map<Id, map<Bytes, Bytes>>,
    spent: map<(Id, Id), nat>,
    burnRate: Option<nat>,
    tipHeight: nat,
    system: map<Bytes, Bytes>)

  /** System contracts share thirty leading 0xFF bytes. */
  const SYSTEM_BASE: nat := 0xFFFF_FFFF_FFFF_FFFF_FFFF_FFFF_FFFF_FFFF_FFFF_FFFF_FFFF_FFFF_FFFF_FFFF_FFFF_0000
  const GOVERNANCE_ADDRESS: Id := SYSTEM_BASE + 0x02
  const BRIDGE_ADDRESS: Id := SYSTEM_BASE + 0x03
  const GUARDIAN_ADDRESS: Id := SYSTEM_BASE + 0x08
  const STAKING_POOL_ADDRESS: Id := SYSTEM_BASE + 0x10

  predicate IsSystem(id: Id) { SYSTEM_BASE <= id < SYSTEM_BASE + 0x1_0000 }

  function Put(l: Ledger, id: Id, a: Account): Ledger { l.(accounts := l.accounts[id := a]) }

  function BalanceOf(l: Ledger, id: Id): nat {
    if id in l.accounts then l.accounts[id].balance else 0
  }

  // ---------- Total supply ----------

  ghost function SumOver(m: map<Id, Account>, ids: set<Id>): nat
    requires ids <= m.Keys
  {
    if ids == {} then 0
    else
      var id :| id in ids;
      m[id].balance + SumOver(m, ids - {id})
  }

  ghost function Total(l: Ledger): nat { SumOver(l.accounts, l.accounts.Keys) }

  lemma {:induction false} SumTakes(m: map<Id, Account>, ids: set<Id>, id: Id)
    requires ids <= m.Keys && id in ids
    ensures SumOver(m, ids) == m[id].balance + SumOver(m, ids - {id})
  {
    var first :| first in ids && SumOver(m, ids) == m[first].balance + SumOver(m, ids - {first});
    if first != id {
      SumTakes(m, ids - {first}, id);
      SumTakes(m, ids - {id}, first);
      assert ids - {first} - {id} == ids - {id} - {first};
    }
  }

  lemma {:induction false} SumAgrees(m: map<Id, Account>, w: map<Id, Account>, ids: set<Id>)
    requires ids <= m.Keys && ids <= w.Keys
    requires forall id :: id in ids ==> m[id].balance == w[id].balance
    ensures SumOver(m, ids) == SumOver(w, ids)
  {
    if ids != {} {
      var id :| id in ids;
      SumTakes(m, ids, id);
      SumTakes(w, ids, id);
      SumAgrees(m, w, ids - {id});
    }
  }

  /** Writing one account moves the total by the change of that balance. */
  lemma TotalPut(l: Ledger, id: Id, a: Account)
    ensures Total(Put(l, id, a)) + BalanceOf(l, id) == Total(l) + a.balance
    ensures BalanceOf(l, id) <= Total(l)
  {
    var m, w := l.accounts, l.accounts[id := a];
    SumTakes(w, w.Keys, id);
    assert w.Keys - {id} == m.Keys - {id};
    SumAgrees(m, w, m.Keys - {id});
    if id in m { SumTakes(m, m.Keys, id); } else { assert m.Keys - {id} == m.Keys; }
  }

  /** Only the accounts carry balances. */
  lemma TotalOf(l: Ledger, r: Ledger)
    requires l.accounts == r.accounts
    ensures Total(l) == Total(r)
  {
  }

  // ---------- Transfer and nonce ----------

  /** Failure keeps what was written before it, as the code does. */
  function TransferTo(l: Ledger, from: Id, to: Id, amount: nat): (Ledger, bool) {
    if from !in l.accounts || l.accounts[from].balance < amount then (l, false)
    else
      var debited := Put(l, from, l.accounts[from].(balance := l.accounts[from].balance - amount));
      if to !in debited.accounts && IsSystem(to) then (debited, false)
      else
        var to' := if to in debited.accounts then debited.accounts[to] else Account(NO_CODE, [Ed25519(to)], 0, 0);
        (Put(debited, to, to'.(balance := SatAdd(to'.balance, amount))), true)
  }

  function ConsumeNonce(l: Ledger, id: Id, nonce: nat): (Ledger, bool) {
    if id !in l.accounts || nonce != l.accounts[id].nonce || nonce >= MAX_U64 then (l, false)
    else (Put(l, id, l.accounts[id].(nonce := nonce + 1)), true)
  }

  /** The nonce an account would have to use; a missing account starts at zero. */
  function NonceAt(l: Ledger, id: Id): nat {
    if id in l.accounts then l.accounts[id].nonce else 0
  }

  /** Existing accounts stay, with their code, authorisation and nonce, and new ones start
      at nonce zero. */
  ghost predicate Stable(l: Ledger, r: Ledger) {
    && (forall id :: id in l.accounts ==>
          id in r.accounts && r.accounts[id] == l.accounts[id].(balance := r.accounts[id].balance))
    && (forall id :: NonceAt(r, id) == NonceAt(l, id))
  }

  lemma StableTransitive(a: Ledger, b: Ledger, c: Ledger)
    requires Stable(a, b) && Stable(b, c)
    ensures Stable(a, c)
  {
  }

  /** A transfer moves value and nothing else: the supply stays, the balances of the
      two parties move by the amount, and every other account is untouched. */
  lemma TransferConserves(l: Ledger, from: Id, to: Id, amount: nat)
    requires Total(l) <= MAX_U128 && TransferTo(l, from, to, amount).1
    ensures var r := TransferTo(l, from, to, amount).0;
      && Total(r) == Total(l) && Stable(l, r)
      && r == l.(accounts := r.accounts)
      && (from != to ==> BalanceOf(r, from) == BalanceOf(l, from) - amount && BalanceOf(r, to) == BalanceOf(l, to) + amount)
      && (from == to ==> r == l)
      && (forall id :: id != from && id != to ==> (id in r.accounts <==> id in l.accounts))
      && (forall id :: id != from && id != to && id in l.accounts ==> r.accounts[id] == l.accounts[id])
  {
    var debited := Put(l, from, l.accounts[from].(balance := l.accounts[from].balance - amount));
    TotalPut(l, from, debited.accounts[from]);
    var r := TransferTo(l, from, to, amount).0;
    TotalPut(debited, to, r.accounts[to]);
    if from == to { assert r.accounts == l.accounts; }
  }

  /** When a transfer is refused. */
  lemma TransferRefused(l: Ledger, from: Id, to: Id, amount: nat)
    ensures !TransferTo(l, from, to, amount).1 <==>
            BalanceOf(l, from) < amount || from !in l.accounts || (IsSystem(to) && to !in l.accounts)
  {
  }

  /** `StateManager`: accounts behind a mutable store. */
  class StateManager {
    var ledger: Ledger

    constructor (l: Ledger)
      ensures ledger == l
    {
      ledger := l;
    }

    method SaveAccount(id: Id, a: Account)
      modifies this
      ensures ledger == Put(old(ledger), id, a)
    {
      ledger := ledger.(accounts := ledger.accounts[id := a]);
    }

    method Transfer(from: Id, to: Id, amount: nat) returns (ok: bool)
      modifies this
      ensures (ledger, ok) == TransferTo(old(ledger), from, to, amount)
    {
      if from !in ledger.accounts { return false; }
      var sender := ledger.accounts[from];
      if sender.balance < amount { return false; }
      SaveAccount(from, sender.(balance := sender.balance - amount));
      var receiver;
      if to in ledger.accounts {
        receiver := ledger.accounts[to];
      } else {
        if IsSystem(to) { return false; }
        receiver := Account(NO_CODE, [Ed25519(to)], 0, 0);
        SaveAccount(to, receiver);
      }
      SaveAccount(to, receiver.(balance := SatAdd(receiver.balance, amount)));
      assert ledger.accounts == TransferTo(old(ledger), from, to, amount).0.accounts;
      ok := true;
    }

    method UseNonce(id: Id, nonce: nat) returns (ok: bool)
      modifies this
      ensures (ledger, ok) == ConsumeNonce(old(ledger), id, nonce)
    {
      if id !in ledger.accounts { return false; }
      var account := ledger.accounts[id];
      if nonce != account.nonce || account.nonce >= MAX_U64 { return false; }
      SaveAccount(id, account.(nonce := account.nonce + 1));
      ok := true;
    }
  }
}
