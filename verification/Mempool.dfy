/** The pool of pending operations: entries in fee order and two indexes over them. */
module Mempool {
  import opened Types

  type Entries = seq<UserOperation>
  type Key = (Id, nat)

  const MAX_OPS_PER_SENDER: nat := 64
  const MAX_OP_SIZE: nat := 8_388_608

  function KeyOf(op: UserOperation): Key { (op.sender, op.nonce) }

  /** The tree order: higher fee first, then sender, then nonce. */
  predicate Before(a: UserOperation, b: UserOperation) {
    || a.maxFee > b.maxFee
    || (a.maxFee == b.maxFee && (a.sender < b.sender || (a.sender == b.sender && a.nonce < b.nonce)))
  }

  ghost predicate Ordered(es: Entries) { forall i, j :: 0 <= i < j < |es| ==> Before(es[i], es[j]) }

  ghost predicate Unique(es: Entries) { forall i, j :: 0 <= i < j < |es| ==> KeyOf(es[i]) != KeyOf(es[j]) }

  function Keys(es: Entries): set<Key> { set e | e in es :: KeyOf(e) }

  function CountOf(es: Entries, sender: Id): nat {
    if es == [] then 0 else (if es[0].sender == sender then 1 else 0) + CountOf(es[1..], sender)
  }

  // ---------- What the operations compute ----------

  function ActionSize(a: Action): nat {
    match a
    case Deploy(code, _) => |code| + 32
    case Call(_, callMethod, args) => |args| + |callMethod| + 32
    case _ => 64
  }

  function ActionsSize(actions: seq<Action>): nat {
    if actions == [] then 0 else ActionSize(actions[0]) + ActionsSize(actions[1..])
  }

  predicate Eligible(op: UserOperation) {
    op.signature != SYSTEM_SIGNATURE && |op.signature| + ActionsSize(op.actions) <= MAX_OP_SIZE
  }

  /** Where an operation belongs. */
  function Place(es: Entries, op: UserOperation): (p: nat)
    ensures p <= |es|
  {
    if es == [] || Before(op, es[0]) then 0 else 1 + Place(es[1..], op)
  }

  function Inserted(es: Entries, op: UserOperation): Entries {
    es[..Place(es, op)] + [op] + es[Place(es, op)..]
  }

  /** A full pool gives way only to a higher fee than its lowest. */
  predicate Turned(es: Entries, maxSize: nat, op: UserOperation) {
    |es| >= maxSize && (es == [] || op.maxFee <= es[|es| - 1].maxFee)
  }

  /** The entries an admitted operation would join: one is evicted from a full pool. */
  function Room(es: Entries, maxSize: nat): Entries {
    if es != [] && |es| >= maxSize then es[..|es| - 1] else es
  }

  /** Sender at its limit, or key already there, once room has been made. */
  predicate Refused(room: Entries, op: UserOperation) {
    CountOf(room, op.sender) >= MAX_OPS_PER_SENDER || KeyOf(op) in Keys(room)
  }

  function Submitted(es: Entries, maxSize: nat, op: UserOperation): (Entries, bool) {
    if !Eligible(op) || Turned(es, maxSize, op) then (es, false)
    else
      var room := Room(es, maxSize);
      if Refused(room, op) then (room, false) else (Inserted(room, op), true)
  }

  function Except(es: Entries, keys: set<Key>): Entries {
    if es == [] then [] else (if KeyOf(es[0]) in keys then [] else [es[0]]) + Except(es[1..], keys)
  }

  // ---------- Counting and order ----------

  lemma {:induction false} CountAppend(a: Entries, b: Entries, sender: Id)
    ensures CountOf(a + b, sender) == CountOf(a, sender) + CountOf(b, sender)
  {
    if a == [] {
      assert a + b == b;
    } else {
      assert (a + b)[1..] == a[1..] + b;
      CountAppend(a[1..], b, sender);
    }
  }

  lemma CountSplit(es: Entries, i: nat, sender: Id)
    requires i < |es|
    ensures CountOf(es, sender) == CountOf(es[..i] + es[i + 1..], sender) + if es[i].sender == sender then 1 else 0
  {
    assert es == es[..i] + ([es[i]] + es[i + 1..]);
    CountAppend(es[..i], [es[i]] + es[i + 1..], sender);
    CountAppend([es[i]], es[i + 1..], sender);
    CountAppend(es[..i], es[i + 1..], sender);
    assert [es[i]][1..] == [];
  }

  lemma KeysSplit(es: Entries, i: nat)
    requires i < |es| && Unique(es)
    ensures Keys(es[..i] + es[i + 1..]) == Keys(es) - {KeyOf(es[i])}
  {
  }

  lemma CutKeepsOrder(es: Entries, i: nat)
    requires i < |es| && Ordered(es) && Unique(es)
    ensures Ordered(es[..i] + es[i + 1..]) && Unique(es[..i] + es[i + 1..])
  {
  }

  /** Everything in front of the place comes before, everything from it on after. */
  lemma {:induction false} PlaceSplits(es: Entries, op: UserOperation)
    requires Ordered(es) && KeyOf(op) !in Keys(es)
    ensures forall j :: 0 <= j < Place(es, op) ==> Before(es[j], op)
    ensures forall j :: Place(es, op) <= j < |es| ==> Before(op, es[j])
  {
    if es != [] {
      assert es[0] in es;
      if !Before(op, es[0]) {
        assert forall e :: e in es[1..] ==> e in es;
        PlaceSplits(es[1..], op);
        assert forall j :: 1 <= j < |es| ==> es[j] == es[1..][j - 1];
      }
    }
  }

  lemma InsertKeepsOrder(es: Entries, op: UserOperation)
    requires Ordered(es) && Unique(es) && KeyOf(op) !in Keys(es)
    ensures Ordered(Inserted(es, op)) && Unique(Inserted(es, op))
  {
    PlaceSplits(es, op);
    var p, r := Place(es, op), Inserted(es, op);
    forall a, b | 0 <= a < b < |r| ensures Before(r[a], r[b]) && KeyOf(r[a]) != KeyOf(r[b]) {
      assert a != p ==> r[a] == es[if a < p then a else a - 1];
      assert b != p ==> r[b] == es[if b < p then b else b - 1];
      assert a != p ==> r[a] in es;
      assert b != p ==> r[b] in es;
    }
  }

  lemma InsertKeys(es: Entries, op: UserOperation)
    ensures Keys(Inserted(es, op)) == Keys(es) + {KeyOf(op)}
  {
  }

  lemma InsertCount(es: Entries, op: UserOperation, sender: Id)
    ensures CountOf(Inserted(es, op), sender) == CountOf(es, sender) + if op.sender == sender then 1 else 0
  {
    var p, r := Place(es, op), Inserted(es, op);
    assert r[..p] + r[p + 1..] == es by { assert es == es[..p] + es[p..]; }
    CountSplit(r, p, sender);
  }

  // ---------- The pool ----------

  class Mempool {
    const maxSize: nat
    var entries: Entries
    var seen: set<Key>
    var senderCounts: map<Id, nat>

    /** The three indexes agree, keys are unique, and every limit holds. */
    ghost predicate Valid()
      reads this
    {
      && Ordered(entries) && Unique(entries)
      && seen == Keys(entries)
      && (forall s :: s in senderCounts <==> CountOf(entries, s) > 0)
      && (forall s :: s in senderCounts ==> senderCounts[s] == CountOf(entries, s))
      && (forall s :: CountOf(entries, s) <= MAX_OPS_PER_SENDER)
      && |entries| <= maxSize
    }

    constructor (maxSize: nat)
      ensures Valid() && entries == [] && this.maxSize == maxSize
    {
      this.maxSize := maxSize;
      entries, seen, senderCounts := [], {}, map[];
    }

    /** Takes the entry at a position out of all three indexes. */
    method Forget(i: nat)
      requires Valid() && i < |entries|
      modifies this
      ensures Valid() && entries == old(entries[..i] + entries[i + 1..])
    {
      var e := entries[i];
      ghost var before := entries;
      KeysSplit(entries, i);
      CutKeepsOrder(entries, i);
      forall s ensures CountOf(before, s) == CountOf(before[..i] + before[i + 1..], s) + if e.sender == s then 1 else 0 {
        CountSplit(before, i, s);
      }
      entries := entries[..i] + entries[i + 1..];
      seen := seen - {KeyOf(e)};
      if e.sender in senderCounts {
        var count := if senderCounts[e.sender] == 0 then 0 else senderCounts[e.sender] - 1;
        senderCounts := if count == 0 then senderCounts - {e.sender} else senderCounts[e.sender := count];
      }
    }

    /** `submit` */
    method Submit(op: UserOperation) returns (ok: bool)
      requires Valid()
      modifies this
      ensures Valid() && (entries, ok) == Submitted(old(entries), maxSize, op)
    {
      if op.signature == SYSTEM_SIGNATURE { return false; }
      if |op.signature| + ActionsSize(op.actions) > MAX_OP_SIZE { return false; }
      if |entries| >= maxSize {
        if entries == [] || op.maxFee <= entries[|entries| - 1].maxFee { return false; }
        assert entries[..|entries| - 1] + entries[|entries|..] == entries[..|entries| - 1];
        Forget(|entries| - 1);
      }
      assert entries == Room(old(entries), maxSize);
      var count := if op.sender in senderCounts then senderCounts[op.sender] else 0;
      if count >= MAX_OPS_PER_SENDER { return false; }
      if KeyOf(op) in seen { return false; }
      Insert(op);
      ok := true;
    }

    method Insert(op: UserOperation)
      requires Valid() && KeyOf(op) !in seen && |entries| < maxSize && CountOf(entries, op.sender) < MAX_OPS_PER_SENDER
      modifies this
      ensures Valid() && entries == Inserted(old(entries), op)
    {
      ghost var before := entries;
      InsertKeepsOrder(entries, op);
      InsertKeys(entries, op);
      forall s ensures CountOf(Inserted(before, op), s) == CountOf(before, s) + if op.sender == s then 1 else 0 {
        InsertCount(before, op, s);
      }
      seen := seen + {KeyOf(op)};
      var i := 0;
      while i < |entries| && !Before(op, entries[i])
        invariant i <= |entries| && Place(entries, op) == i + Place(entries[i..], op)
      {
        assert entries[i..][1..] == entries[i + 1..];
        i := i + 1;
      }
      entries := entries[..i] + [op] + entries[i..];
      senderCounts := senderCounts[op.sender := 1 + if op.sender in senderCounts then senderCounts[op.sender] else 0];
    }

    /** `clear` */
    method Clear()
      modifies this
      ensures Valid() && entries == []
    {
      entries, seen, senderCounts := [], {}, map[];
    }

    /** `drain`: the first entries in fee order, no more than asked for. */
    method Drain(limit: nat) returns (ops: Entries)
      requires Valid()
      modifies this
      ensures Valid() && ops == old(entries)[..Min(limit, |old(entries)|)] && entries == old(entries)[|ops|..]
    {
      var n := Min(limit, |entries|);
      ops := [];
      while |ops| < n
        invariant Valid() && |ops| <= n && n == Min(limit, |old(entries)|)
        invariant ops == old(entries)[..|ops|] && entries == old(entries)[|ops|..]
      {
        var first := entries[0];
        assert entries[..0] + entries[1..] == entries[1..];
        Forget(0);
        ops := ops + [first];
      }
    }

    method RemoveKey(key: Key)
      requires Valid()
      modifies this
      ensures Valid() && entries == Except(old(entries), {key})
    {
      if key !in seen {
        ExceptAbsent(entries, key);
        return;
      }
      var i := 0;
      while i < |entries| && KeyOf(entries[i]) != key
        invariant i <= |entries| && forall j :: 0 <= j < i ==> KeyOf(entries[j]) != key
      {
        i := i + 1;
      }
      if i < |entries| {
        CutIsExcept(entries, i);
        Forget(i);
      }
    }

    /** `remove_finalized`: exactly the listed keys go, whatever fee their entries carry. */
    method RemoveFinalized(ops: seq<UserOperation>)
      requires Valid()
      modifies this
      ensures Valid() && entries == Except(old(entries), Keys(ops))
    {
      ExceptNone(entries);
      assert Keys(ops[..0]) == {};
      for k := 0 to |ops|
        invariant Valid() && entries == Except(old(entries), Keys(ops[..k]))
      {
        RemoveKey(KeyOf(ops[k]));
        ExceptTwice(old(entries), Keys(ops[..k]), {KeyOf(ops[k])});
        KeysNext(ops, k);
      }
      assert ops[..|ops|] == ops;
    }
  }

  lemma KeysNext(ops: Entries, k: nat)
    requires k < |ops|
    ensures Keys(ops[..k + 1]) == Keys(ops[..k]) + {KeyOf(ops[k])}
  {
  }

  // ---------- Removal by key ----------

  lemma {:induction false} ExceptNone(es: Entries)
    ensures Except(es, {}) == es
  {
    if es != [] { ExceptNone(es[1..]); }
  }

  lemma {:induction false} ExceptAbsent(es: Entries, key: Key)
    requires key !in Keys(es)
    ensures Except(es, {key}) == es
  {
    if es != [] {
      assert es[0] in es && forall e :: e in es[1..] ==> e in es;
      ExceptAbsent(es[1..], key);
    }
  }

  lemma {:induction false} ExceptTwice(es: Entries, a: set<Key>, b: set<Key>)
    ensures Except(Except(es, a), b) == Except(es, a + b)
  {
    if es != [] {
      ExceptTwice(es[1..], a, b);
      if KeyOf(es[0]) in a {
        assert Except(es, a) == Except(es[1..], a);
        assert Except(es, a + b) == Except(es[1..], a + b);
      } else {
        assert Except(es, a)[1..] == Except(es[1..], a);
      }
    }
  }

  lemma {:induction false} CutIsExcept(es: Entries, i: nat)
    requires Unique(es) && i < |es|
    ensures Except(es, {KeyOf(es[i])}) == es[..i] + es[i + 1..]
  {
    var rest := es[1..];
    if i == 0 {
      forall e | e in rest ensures KeyOf(e) != KeyOf(es[0]) {
        var k :| 0 <= k < |rest| && rest[k] == e;
        assert es[k + 1] == e;
      }
      assert KeyOf(es[0]) !in Keys(rest);
      ExceptAbsent(rest, KeyOf(es[0]));
    } else {
      assert rest[i - 1] == es[i];
      CutIsExcept(rest, i - 1);
      assert es[..i] + es[i + 1..] == [es[0]] + (rest[..i - 1] + rest[i..]);
    }
  }

  // ---------- Laws ----------

  lemma {:induction false} ExceptMembers(es: Entries, keys: set<Key>, e: UserOperation)
    ensures e in Except(es, keys) <==> e in es && KeyOf(e) !in keys
  {
    if es != [] {
      ExceptMembers(es[1..], keys, e);
      assert es == [es[0]] + es[1..];
    }
  }

  /** What a drain takes pays at least as much as what it leaves. */
  lemma DrainTakesBest(es: Entries, n: nat, i: nat, j: nat)
    requires Ordered(es) && i < n <= j < |es|
    ensures es[i].maxFee >= es[j].maxFee
  {
  }

  /** Entries that pay the same go by sender, and one sender's in nonce order, so a drain
      never takes an operation before an equally priced one it depends on. */
  lemma EqualFeesInTurn(es: Entries, i: nat, j: nat)
    requires Ordered(es) && i < |es| && j < |es| && es[i].maxFee == es[j].maxFee
    ensures i < j <==> es[i].sender < es[j].sender || (es[i].sender == es[j].sender && es[i].nonce < es[j].nonce)
  {
    if j < i { assert Before(es[j], es[i]); }
  }

  /** A refused submission changes the pool exactly when it evicts an entry to make room
      and only then meets its sender's limit or its own key. */
  lemma RefusalEvictsIff(es: Entries, maxSize: nat, op: UserOperation)
    requires !Submitted(es, maxSize, op).1
    ensures Submitted(es, maxSize, op).0 != es <==>
            && Eligible(op) && |es| >= maxSize && es != [] && op.maxFee > es[|es| - 1].maxFee
            && Refused(es[..|es| - 1], op)
  {
  }

  /** Resending a pending operation with a higher fee to a full pool is refused and costs
      the pool its lowest entry. */
  lemma ResendEvicts(es: Entries, op: UserOperation, i: nat)
    requires Eligible(op) && i + 1 < |es| && KeyOf(es[i]) == KeyOf(op) && op.maxFee > es[|es| - 1].maxFee
    ensures Submitted(es, |es|, op) == (es[..|es| - 1], false)
  {
  }

  lemma InsertedHolds(es: Entries, op: UserOperation)
    ensures op in Inserted(es, op) && forall e :: e in es ==> e in Inserted(es, op)
  {
  }

  /** An accepted operation joins the pool; the only other entry that can go is the
      lowest, and it paid strictly less. */
  lemma AcceptedJoins(es: Entries, maxSize: nat, op: UserOperation, e: UserOperation)
    requires Ordered(es) && Unique(es) && Submitted(es, maxSize, op).1
    ensures op in Submitted(es, maxSize, op).0
    ensures e in es && e !in Submitted(es, maxSize, op).0 ==>
              |es| >= maxSize && e == es[|es| - 1] && e.maxFee < op.maxFee
  {
    var room := Room(es, maxSize);
    InsertedHolds(room, op);
    forall i | 0 <= i < |room| ensures es[i] in Inserted(room, op) { assert room[i] in room; }
  }

  /** The bytes an operation carries. */
  function Payload(actions: seq<Action>): nat {
    if actions == [] then 0
    else
      Payload(actions[1..]) +
      match actions[0]
      case Deploy(code, _) => |code|
      case Call(_, callMethod, args) => |callMethod| + |args|
      case _ => 0
  }

  /** Its measured size is that and at most 64 bytes for each action. */
  lemma {:induction false} SizeBounds(actions: seq<Action>)
    ensures Payload(actions) <= ActionsSize(actions) <= Payload(actions) + 64 * |actions|
  {
    if actions != [] { SizeBounds(actions[1..]); }
  }

  /** Entries of one sender. */
  function OfSender(es: Entries, sender: Id): set<UserOperation> { set e | e in es && e.sender == sender }

  lemma {:induction false} CountIs(es: Entries, sender: Id)
    requires Unique(es)
    ensures CountOf(es, sender) == |OfSender(es, sender)|
  {
    if es == [] {
      assert OfSender(es, sender) == {};
    } else {
      CountIs(es[1..], sender);
      FirstCounts(es, sender);
    }
  }

  lemma FirstCounts(es: Entries, sender: Id)
    requires es != [] && Unique(es)
    ensures |OfSender(es, sender)| == |OfSender(es[1..], sender)| + if es[0].sender == sender then 1 else 0
  {
    var rest := es[1..];
    assert es[0] !in rest by {
      forall k | 0 <= k < |rest| ensures rest[k] != es[0] { assert KeyOf(es[k + 1]) != KeyOf(es[0]); }
    }
    assert es == [es[0]] + rest;
    if es[0].sender == sender {
      assert OfSender(es, sender) == OfSender(rest, sender) + {es[0]};
    } else {
      assert OfSender(es, sender) == OfSender(rest, sender);
    }
  }

  /** A pool in order accepts an operation exactly if the proposer did not mark it, it is at
      most 8 MB, there is room or it outbids the lowest entry, and, with that entry gone, its
      sender has fewer than 64 entries and none with its nonce. */
  lemma AcceptedIff(es: Entries, maxSize: nat, op: UserOperation)
    requires Unique(es)
    ensures Submitted(es, maxSize, op).1 <==>
            && op.signature != [0xFF] && |op.signature| + ActionsSize(op.actions) <= 8 * 1024 * 1024
            && (|es| < maxSize || (es != [] && op.maxFee > es[|es| - 1].maxFee))
            && var room := if |es| < maxSize then es else es[..|es| - 1];
               |OfSender(room, op.sender)| < 64 && forall e :: e in room ==> (e.sender, e.nonce) != (op.sender, op.nonce)
  {
    var room := if |es| < maxSize || es == [] then es else es[..|es| - 1];
    assert room == Room(es, maxSize);
    CountIs(room, op.sender);
    if e :| e in room && KeyOf(e) == KeyOf(op) { assert KeyOf(op) in Keys(room); }
  }
}
