/** The snapshot format: a fixed header, then a compressed, length-prefixed listing of
    the whole store. */
module Snapshot {
  import opened Types

  type Byte = b: nat | b < 256
  type Blob = seq<Byte>
  type KeyValues = map<Blob, Blob>

  const MAGIC: Blob := [83, 78, 65, 80]
  const VERSION: nat := 1
  const HEADER_SIZE: nat := 56
  const MAX_SNAPSHOT_SIZE: nat := 2_147_483_648
  const TWO_32: nat := 0x1_0000_0000
  const TWO_64: nat := 0x1_0000_0000_0000_0000

  datatype Entry = Entry(key: Blob, val: Blob)

  datatype Meta = Meta(height: nat, epoch: nat, root: Blob, count: nat)

  datatype Result<T> = Ok(value: T) | Err

  /** Compression and the state root are left open. */
  datatype Codec = Codec(compress: Blob -> Blob, decompress: Blob -> Option<Blob>, root: KeyValues -> Blob)

  // ---------- Little-endian integers ----------

  function Pow256(w: nat): nat { if w == 0 then 1 else 256 * Pow256(w - 1) }

  /** The low `w` bytes of a number; the rest is cut off. */
  function Encode(n: nat, w: nat): (b: Blob)
    ensures |b| == w
  {
    if w == 0 then [] else [n % 256] + Encode(n / 256, w - 1)
  }

  function Decode(b: Blob): nat { if b == [] then 0 else b[0] + 256 * Decode(b[1..]) }

  lemma {:induction false} DecodeEncode(n: nat, w: nat)
    requires n < Pow256(w)
    ensures Decode(Encode(n, w)) == n
  {
    if w > 0 {
      assert Encode(n, w)[1..] == Encode(n / 256, w - 1);
      DecodeEncode(n / 256, w - 1);
    }
  }

  lemma Widths()
    ensures Pow256(4) == TWO_32 && Pow256(8) == TWO_64
  {
  }

  // ---------- Writing ----------

  function EntryBytes(e: Entry): Blob {
    Encode(|e.key|, 4) + e.key + Encode(|e.val|, 4) + e.val
  }

  function ListBytes(es: seq<Entry>): Blob {
    if es == [] then [] else EntryBytes(es[0]) + ListBytes(es[1..])
  }

  function BodyBytes(es: seq<Entry>): Blob { Encode(|es|, 8) + ListBytes(es) }

  function HeaderBytes(height: nat, epoch: nat, root: Blob): Blob {
    MAGIC + Encode(VERSION, 4) + Encode(height, 8) + Encode(epoch, 8) + root
  }

  /** `create_snapshot`; `es` is the store's own listing. */
  function Created(codec: Codec, es: seq<Entry>, root: Blob, height: nat, epoch: nat): Blob {
    HeaderBytes(height, epoch, root) + codec.compress(BodyBytes(es))
  }

  // ---------- Reading ----------

  /** `read_snapshot_meta` */
  function ReadMeta(data: Blob): Result<Meta> {
    if |data| < HEADER_SIZE || data[..4] != MAGIC || Decode(data[4..8]) != VERSION then Err
    else Ok(Meta(Decode(data[8..16]), Decode(data[16..24]), data[24..56], 0))
  }

  /** Reads up to `left` entries; returns the store and how many were not read. */
  function Parse(rest: Blob, left: nat, s: KeyValues): (KeyValues, nat)
    decreases |rest|
  {
    if rest == [] || left == 0 || |rest| < 4 then (s, left)
    else
      var kl := Decode(rest[..4]);
      if |rest| < 4 + kl + 4 then (s, left)
      else
        var vl := Decode(rest[4 + kl..8 + kl]);
        if |rest| < 8 + kl + vl then (s, left)
        else Parse(rest[8 + kl + vl..], left - 1, s[rest[4..4 + kl] := rest[8 + kl..8 + kl + vl]])
  }

  /** The entry loop and its checks, on the uncompressed body. */
  function Loaded(codec: Codec, s: KeyValues, raw: Blob, meta: Meta): (KeyValues, Result<Meta>) {
    if |raw| > MAX_SNAPSHOT_SIZE || |raw| < 8 then (s, Err)
    else
      var count := Decode(raw[..8]);
      var (s', left) := Parse(raw[8..], count, s);
      if left > 0 || codec.root(s') != meta.root then (s', Err) else (s', Ok(meta.(count := count)))
  }

  /** `restore_snapshot`: the store afterwards, and the outcome. */
  function Restored(codec: Codec, s: KeyValues, data: Blob): (KeyValues, Result<Meta>) {
    match ReadMeta(data)
    case Err => (s, Err)
    case Ok(meta) =>
      match codec.decompress(data[HEADER_SIZE..])
      case None => (s, Err)
      case Some(raw) => Loaded(codec, s, raw, meta)
  }

  // ---------- The body round trip ----------

  predicate Fits(e: Entry) { |e.key| < TWO_32 && |e.val| < TWO_32 }

  function PutAll(s: KeyValues, es: seq<Entry>): KeyValues
    decreases |es|
  {
    if es == [] then s else PutAll(s[es[0].key := es[0].val], es[1..])
  }

  /** The fields of an entry, read back from its bytes with anything after them. */
  lemma EntryFields(e: Entry, tail: Blob)
    requires Fits(e)
    ensures var r := EntryBytes(e) + tail; var kl, vl := |e.key|, |e.val|;
      && |r| >= 8 + kl + vl
      && Decode(r[..4]) == kl && r[4..4 + kl] == e.key
      && Decode(r[4 + kl..8 + kl]) == vl && r[8 + kl..8 + kl + vl] == e.val
      && r[8 + kl + vl..] == tail
  {
    var r := EntryBytes(e) + tail;
    var kl, vl := |e.key|, |e.val|;
    Widths();
    DecodeEncode(kl, 4);
    DecodeEncode(vl, 4);
    assert r[..4] == Encode(kl, 4);
    assert r[4..4 + kl] == e.key;
    assert r[4 + kl..8 + kl] == Encode(vl, 4);
    assert r[8 + kl..8 + kl + vl] == e.val;
  }

  lemma ParseEntry(e: Entry, tail: Blob, left: nat, s: KeyValues)
    requires Fits(e) && left > 0
    ensures Parse(EntryBytes(e) + tail, left, s) == Parse(tail, left - 1, s[e.key := e.val])
  {
    EntryFields(e, tail);
  }

  lemma ParseStep(rest: Blob, left: nat, s: KeyValues, kl: nat, vl: nat)
    requires left > 0 && |rest| >= 8 + kl + vl && kl == Decode(rest[..4]) && vl == Decode(rest[4 + kl..8 + kl])
    ensures Parse(rest, left, s) == Parse(rest[8 + kl + vl..], left - 1, s[rest[4..4 + kl] := rest[8 + kl..8 + kl + vl]])
  {
  }

  /** Reading back a listing puts exactly its entries, in order, whatever follows it. */
  lemma {:induction false} ParseList(es: seq<Entry>, tail: Blob, s: KeyValues)
    requires forall e :: e in es ==> Fits(e)
    ensures Parse(ListBytes(es) + tail, |es|, s) == (PutAll(s, es), 0)
    decreases |es|
  {
    if es != [] {
      var rest := ListBytes(es[1..]) + tail;
      assert ListBytes(es) + tail == EntryBytes(es[0]) + rest;
      ParseEntry(es[0], rest, |es|, s);
      ParseList(es[1..], tail, s[es[0].key := es[0].val]);
    }
  }

  /** A listing of a store: every key once, with its value. */
  ghost predicate Lists(es: seq<Entry>, m: KeyValues) {
    && (forall i, j :: 0 <= i < j < |es| ==> es[i].key != es[j].key)
    && (forall e :: e in es ==> e.key in m && m[e.key] == e.val)
    && (forall k :: k in m ==> Entry(k, m[k]) in es)
  }

  lemma {:induction false} PutAllAt(s: KeyValues, es: seq<Entry>, k: Blob)
    requires forall i, j :: 0 <= i < j < |es| ==> es[i].key != es[j].key
    ensures forall e :: e in es && e.key == k ==> k in PutAll(s, es) && PutAll(s, es)[k] == e.val
    ensures (forall e :: e in es ==> e.key != k) ==>
              (k in PutAll(s, es) <==> k in s) && (k in s ==> PutAll(s, es)[k] == s[k])
    decreases |es|
  {
    if es != [] {
      var first, rest := es[0], es[1..];
      PutAllAt(s[first.key := first.val], rest, k);
      assert first in es && forall e :: e in rest ==> e in es;
      if first.key == k {
        forall e | e in rest ensures e.key != k {
          var i :| 0 <= i < |rest| && rest[i] == e;
          assert es[i + 1] == e;
        }
      }
      assert forall e :: e in es ==> e == first || e in rest;
    }
  }

  lemma PutAllRebuilds(m: KeyValues, es: seq<Entry>)
    requires Lists(es, m)
    ensures PutAll(map[], es) == m
  {
    forall k ensures (k in PutAll(map[], es) <==> k in m) && (k in m ==> PutAll(map[], es)[k] == m[k]) {
      PutAllAt(map[], es, k);
      if k in m { assert Entry(k, m[k]) in es; }
    }
  }

  // ---------- The whole round trip ----------

  lemma HeaderRead(height: nat, epoch: nat, root: Blob, tail: Blob)
    requires height < TWO_64 && epoch < TWO_64 && |root| == 32
    ensures ReadMeta(HeaderBytes(height, epoch, root) + tail) == Ok(Meta(height, epoch, root, 0))
    ensures (HeaderBytes(height, epoch, root) + tail)[HEADER_SIZE..] == tail
  {
    var d := HeaderBytes(height, epoch, root) + tail;
    Widths();
    DecodeEncode(VERSION, 4);
    DecodeEncode(height, 8);
    DecodeEncode(epoch, 8);
    HeaderSlices(MAGIC, Encode(VERSION, 4), Encode(height, 8), Encode(epoch, 8), root, tail);
  }

  lemma HeaderSlices(m: Blob, v: Blob, h: Blob, e: Blob, root: Blob, tail: Blob)
    requires |m| == 4 && |v| == 4 && |h| == 8 && |e| == 8 && |root| == 32
    ensures var d := m + v + h + e + root + tail;
      && d[..4] == m && d[4..8] == v && d[8..16] == h && d[16..24] == e && d[24..56] == root && d[56..] == tail
  {
  }

  /** Restoring a created snapshot into an empty store gives back the same map, height,
      epoch and root. */
  lemma RoundTrip(codec: Codec, m: KeyValues, es: seq<Entry>, height: nat, epoch: nat)
    requires Lists(es, m) && (forall e :: e in es ==> Fits(e)) && |es| < TWO_64
    requires height < TWO_64 && epoch < TWO_64 && |codec.root(m)| == 32
    requires |BodyBytes(es)| <= MAX_SNAPSHOT_SIZE
    requires codec.decompress(codec.compress(BodyBytes(es))) == Some(BodyBytes(es))
    ensures Restored(codec, map[], Created(codec, es, codec.root(m), height, epoch))
            == (m, Ok(Meta(height, epoch, codec.root(m), |es|)))
  {
    HeaderRead(height, epoch, codec.root(m), codec.compress(BodyBytes(es)));
    BodyRead(es);
    ParseList(es, [], map[]);
    assert ListBytes(es) + [] == ListBytes(es);
    PutAllRebuilds(m, es);
  }

  lemma BodyRead(es: seq<Entry>)
    requires |es| < TWO_64
    ensures var raw := BodyBytes(es); |raw| >= 8 && Decode(raw[..8]) == |es| && raw[8..] == ListBytes(es)
  {
    Widths();
    DecodeEncode(|es|, 8);
    assert BodyBytes(es)[..8] == Encode(|es|, 8);
  }

  // ---------- Truncation ----------

  /** A strict prefix of an entry reads as nothing. */
  lemma PrefixStops(e: Entry, p: Blob, left: nat, s: KeyValues)
    requires Fits(e) && p < EntryBytes(e)
    ensures Parse(p, left, s) == (s, left)
  {
    var r, kl, vl := EntryBytes(e), |e.key|, |e.val|;
    assert r + [] == r;
    EntryFields(e, []);
    assert forall i, j :: 0 <= i <= j <= |p| ==> p[i..j] == r[i..j];
    if |p| >= 4 {
      assert p[..4] == p[0..4] == r[0..4] == r[..4];
      if |p| >= 8 + kl { assert p[4 + kl..8 + kl] == r[4 + kl..8 + kl]; }
    }
  }

  lemma PrefixOfTwo(a: Blob, b: Blob, p: Blob)
    requires p < a + b
    ensures if |p| < |a| then p < a else p == a + p[|a|..] && p[|a|..] < b
  {
  }

  /** From a strict prefix of a listing fewer entries can be read than it holds. */
  lemma {:induction false} PrefixShort(es: seq<Entry>, p: Blob, left: nat, s: KeyValues)
    requires (forall e :: e in es ==> Fits(e)) && p < ListBytes(es) && left >= |es|
    ensures Parse(p, left, s).1 > left - |es|
    decreases |es|
  {
    var first := EntryBytes(es[0]);
    PrefixOfTwo(first, ListBytes(es[1..]), p);
    if |p| < |first| {
      assert Parse(p, left, s) == (s, left) by { PrefixStops(es[0], p, left, s); }
    } else {
      var q := p[|first|..];
      assert Parse(p, left, s) == Parse(q, left - 1, s[es[0].key := es[0].val]) by { ParseEntry(es[0], q, left, s); }
      PrefixShort(es[1..], q, left - 1, s[es[0].key := es[0].val]);
    }
  }

  /** Every strict prefix of an uncompressed body is rejected, into any store. */
  lemma TruncatedRejected(codec: Codec, es: seq<Entry>, p: Blob, s: KeyValues, meta: Meta)
    requires (forall e :: e in es ==> Fits(e)) && |es| < TWO_64 && p < BodyBytes(es)
    ensures Loaded(codec, s, p, meta).1 == Err
  {
    if 8 <= |p| <= MAX_SNAPSHOT_SIZE {
      BodyRead(es);
      var body := BodyBytes(es);
      PrefixOfTwo(Encode(|es|, 8), ListBytes(es), p);
      assert p[..8] == body[..8] == Encode(|es|, 8);
      PrefixShort(es, p[8..], |es|, s);
    }
  }

  // ---------- The loops ----------

  method Create(codec: Codec, es: seq<Entry>, root: Blob, height: nat, epoch: nat) returns (output: Blob)
    ensures output == Created(codec, es, root, height, epoch)
  {
    var body := Encode(|es|, 8);
    var todo := es;
    while todo != []
      invariant body + ListBytes(todo) == BodyBytes(es)
      decreases |todo|
    {
      assert body + (EntryBytes(todo[0]) + ListBytes(todo[1..])) == body + EntryBytes(todo[0]) + ListBytes(todo[1..]);
      body := body + EntryBytes(todo[0]);
      todo := todo[1..];
    }
    assert body + [] == body;
    output := HeaderBytes(height, epoch, root) + codec.compress(body);
  }

  /** One entry of the loop; no read leaves the buffer. */
  method ReadEntry(raw: Blob, offset: nat, ghost left: nat, ghost s: KeyValues)
    returns (found: bool, e: Entry, next: nat)
    requires offset < |raw| && left > 0
    ensures !found ==> Parse(raw[offset..], left, s) == (s, left)
    ensures found ==> offset < next <= |raw|
    ensures found ==> Parse(raw[offset..], left, s) == Parse(raw[next..], left - 1, s[e.key := e.val])
  {
    ghost var rest := raw[offset..];
    found, e, next := false, Entry([], []), offset;
    if offset + 4 > |raw| { return; }
    assert rest[..4] == raw[offset..offset + 4];
    var keyLen := Decode(raw[offset..offset + 4]);
    if offset + 4 + keyLen + 4 > |raw| { return; }
    assert rest[4 + keyLen..8 + keyLen] == raw[offset + 4 + keyLen..offset + 8 + keyLen];
    var valLen := Decode(raw[offset + 4 + keyLen..offset + 8 + keyLen]);
    if offset + 8 + keyLen + valLen > |raw| { return; }
    found, next := true, offset + 8 + keyLen + valLen;
    e := Entry(raw[offset + 4..offset + 4 + keyLen], raw[offset + 8 + keyLen..next]);
    assert rest[4..4 + keyLen] == e.key && rest[8 + keyLen..8 + keyLen + valLen] == e.val;
    assert rest[8 + keyLen + valLen..] == raw[next..];
    ParseStep(rest, left, s, keyLen, valLen);
  }

  class SnapshotStore {
    var kv: KeyValues

    constructor (m: KeyValues)
      ensures kv == m
    {
      kv := m;
    }

    /** The entry loop with its running offset. */
    method LoadEntries(raw: Blob, count: nat) returns (loaded: nat)
      requires |raw| >= 8
      modifies this
      ensures loaded <= count && (kv, count - loaded) == Parse(raw[8..], count, old(kv))
    {
      var offset := 8;
      loaded := 0;
      while offset < |raw| && loaded < count
        invariant 8 <= offset <= |raw| && loaded <= count
        invariant Parse(raw[offset..], count - loaded, kv) == Parse(raw[8..], count, old(kv))
        decreases |raw| - offset
      {
        var found, e, next := ReadEntry(raw, offset, count - loaded, kv);
        if !found { return; }
        kv := kv[e.key := e.val];
        offset := next;
        loaded := loaded + 1;
      }
    }

    /** `restore_snapshot` */
    method Restore(codec: Codec, data: Blob) returns (r: Result<Meta>)
      modifies this
      ensures (kv, r) == Restored(codec, old(kv), data)
    {
      var meta := ReadMeta(data);
      if meta.Err? { return Err; }
      var body := codec.decompress(data[HEADER_SIZE..]);
      if body.None? { return Err; }
      var raw := body.value;
      if |raw| > MAX_SNAPSHOT_SIZE { return Err; }
      if |raw| < 8 { return Err; }
      var count := Decode(raw[..8]);
      var loaded := LoadEntries(raw, count);
      if loaded < count { return Err; }
      if codec.root(kv) != meta.value.root { return Err; }
      r := Ok(meta.value.(count := loaded));
    }
  }

  /** Whatever was offered: a snapshot is accepted only with the right magic and version, a
      body of at most 2 GB, and a store afterwards whose root is the one in its header; height
      and epoch are the header's. */
  lemma AcceptedMatches(codec: Codec, s: KeyValues, data: Blob)
    requires Restored(codec, s, data).1.Ok?
    ensures |data| >= 56 && data[..4] == MAGIC && Decode(data[4..8]) == 1
    ensures codec.decompress(data[56..]).Some? && 8 <= |codec.decompress(data[56..]).value| <= 2 * 1024 * 1024 * 1024
    ensures var (s', meta) := Restored(codec, s, data);
      && codec.root(s') == meta.value.root == data[24..56]
      && meta.value.height == Decode(data[8..16]) && meta.value.epoch == Decode(data[16..24])
      && meta.value.count == Decode(codec.decompress(data[56..]).value[..8])
  {
  }
}
