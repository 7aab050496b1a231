/** The key-value store, change sets over it, and the undo of a change set. */
module Storage {
  import opened Types

  /** Store keys by role. Only `State` keys enter the state root; every other key
      is node bookkeeping. `Aux` stands for the remaining excluded prefixes
      (slashing evidence, verified sources, checkpoints, chain id). */
  datatype Key =
    | State(name: Bytes)
    | Aux(name: Bytes)
    | BlockBody(height: nat)
    | ChainMeta
    | LastAttestation
    | EagerRevert(height: nat)

  datatype Value =
    | Raw(bytes: Bytes)
    | Body(blockHash: Hash)
    | Meta(height: nat, epoch: nat)
    | Vote(height: nat, blockHash: Hash)
    | Undo(delta: map<Key, Option<Value>>)

  /** `Some(v)` writes `v`, `None` deletes the key. */
  type Delta = map<Key, Option<Value>>

  /** What executing a block may stage: never a record under the reserved
      eager-revert prefix and never the engine's own bookkeeping keys. */
  type Changes = d: Delta | forall k :: k in d ==> k.State? || k.Aux? witness map[]

  type Store = map<Key, Value>

  /** The part of a store that the state root commits to. */
  type StateMap = map<Key, Value>

  function Lookup(s: Store, k: Key): Option<Value> {
    if k in s then Some(s[k]) else None
  }

  function Apply(s: Store, d: Delta): Store {
    map k | k in s.Keys + d.Keys && (k in d ==> d[k].Some?) ::
      if k in d then d[k].value else s[k]
  }

  /** The values that `keys` hold in `s`, as a change set that puts them back. */
  function Capture(s: Store, keys: set<Key>): Delta {
    map k | k in keys :: Lookup(s, k)
  }

  function StateOf(s: Store): StateMap {
    map k | k in s && k.State? :: s[k]
  }

  lemma StoreExtensional(s: Store, t: Store)
    requires forall k :: Lookup(s, k) == Lookup(t, k)
    ensures s == t
  {
    forall k ensures k in s <==> k in t {
      assert Lookup(s, k) == Lookup(t, k);
    }
    forall k | k in s ensures s[k] == t[k] {
      assert Lookup(s, k) == Lookup(t, k);
    }
  }

  lemma LookupApply(s: Store, d: Delta, k: Key)
    ensures Lookup(Apply(s, d), k) == if k in d then d[k] else Lookup(s, k)
  {
  }

  /** A captured change set undoes the change set it was captured for, exactly. */
  lemma UndoRestores(s: Store, d: Delta)
    ensures Apply(Apply(s, d), Capture(s, d.Keys)) == s
  {
  }

  /** `d` holds, on the state keys it touches, exactly the values of `t`. */
  ghost predicate Recalls(d: Delta, t: StateMap) {
    forall k :: k in d && k.State? ==> d[k] == Lookup(t, k)
  }

  /** `s` and `t` may differ only on keys that `d` touches. */
  ghost predicate AgreeOff(s: StateMap, t: StateMap, d: Delta) {
    forall k: Key :: k.State? && k !in d ==> Lookup(s, k) == Lookup(t, k)
  }

  lemma StateOfState(s: Store)
    ensures StateOf(StateOf(s)) == StateOf(s)
  {
  }

  /** Bookkeeping keys do not enter the state. */
  lemma BookkeepingPut(s: Store, k: Key, v: Value)
    requires !k.State?
    ensures StateOf(s[k := v]) == StateOf(s)
  {
  }

  lemma BookkeepingDrop(s: Store, k: Key)
    requires !k.State?
    ensures StateOf(s - {k}) == StateOf(s)
  {
  }

  /** Applying a batch entry by entry, in any order the hash map yields, is `Apply`. */
  method ApplyBatch(s: Store, d: Delta) returns (r: Store)
    ensures r == Apply(s, d)
  {
    r := s;
    var left := d.Keys;
    while left != {}
      invariant left <= d.Keys
      invariant forall k :: Lookup(r, k) ==
                            if k in d && k !in left then d[k] else Lookup(s, k)
      decreases left
    {
      var k :| k in left;
      if d[k].Some? { r := r[k := d[k].value]; } else { r := r - {k}; }
      left := left - {k};
    }
    forall k ensures Lookup(r, k) == Lookup(Apply(s, d), k) { LookupApply(s, d, k); }
    StoreExtensional(r, Apply(s, d));
  }
}
