/**
 The registry's view of the metadata engine: typed keys and decoded records in one map, written
 only through batches. The last section proves that this view is faithful: a batch applied here
 and its encoding applied by either byte engine reach the same store.
 */
module Store {
  import opened Bytes
  import opened Results
  import opened Paging
  import opened Keys
  import opened MetaStore

  datatype EventKind = Created | Deleted

  /** One hour's pulls. */
  datatype Counts = Counts(manifestPulls: nat, blobPulls: nat, bytesOut: nat)

  const NoCounts := Counts(0, 0, 0)

  /** Pulls are stored in 32 bits and bytes in 64. */
  predicate Fits(c: Counts) {
    c.manifestPulls < 0x1_0000_0000 && c.blobPulls < 0x1_0000_0000 && c.bytesOut < 0x1_0000_0000_0000_0000
  }

  type Hours = h: seq<Counts> | |h| == 24 && forall i :: 0 <= i < |h| ==> Fits(h[i]) witness seq(24, i => NoCounts)

  datatype Val =
    | ManifestV(layers: seq<Digest>, children: seq<Digest>, subject: Option<Digest>, pushedAt: nat)
    | BodyV
    | TagV(target: Digest, taggedAt: nat)
    | EdgeV
    | BlobV(size: nat)
    | MarkV(seenAt: nat)
    | MemberV(bytes: nat, addedAt: nat)
    | ReferrerV
    | EventV(kind: EventKind)
    | SessionV(owner: RepoId, updatedAt: nat)
    | CountV(hours: Hours)
    | DeadV(formerly: Name)
    | IdV(id: RepoId)
    | NameV(text: Name)

  type Data = map<Key, Val>
  type Op = MetaOp<Key, Val, Range>

  function ApplyOp(s: Data, op: Op): Data {
    match op
    case Put(k, v) => s[k := v]
    case Delete(k) => s - {k}
    case DeletePrefix(g) => s - (set k | k in s && InRange(k, g))
  }

  function Run(s: Data, ops: seq<Op>): Data {
    if ops == [] then s else ApplyOp(Run(s, ops[..|ops| - 1]), ops[|ops| - 1])
  }

  lemma RunSnoc(s: Data, ops: seq<Op>, op: Op)
    ensures Run(s, ops + [op]) == ApplyOp(Run(s, ops), op)
  {
    assert (ops + [op])[..|ops|] == ops;
  }

  predicate Exists(s: Data, g: Range) {
    exists k :: k in s && InRange(k, g)
  }

  function Pool(s: Data, g: Range): set<Key> {
    set k | k in s && InRange(k, g)
  }

  // --- the net effect of a batch ---------------------------------------

  /** A batch of puts and point deletes boiled down: what it removes, then what it leaves behind. */
  datatype Effect = Effect(dels: set<Key>, puts: Data)

  function Perform(s: Data, e: Effect): Data {
    (s - e.dels) + e.puts
  }

  predicate PointOps(ops: seq<Op>) {
    forall i :: 0 <= i < |ops| ==> !ops[i].DeletePrefix?
  }

  function Summary(ops: seq<Op>): Effect
    requires PointOps(ops)
  {
    if ops == [] then Effect({}, map[])
    else
      var e := Summary(ops[..|ops| - 1]);
      match ops[|ops| - 1]
      case Put(k, v) => Effect(e.dels, e.puts[k := v])
      case Delete(k) => Effect(e.dels + {k}, e.puts - {k})
  }

  /** Applying a batch op by op and performing its summary are the same thing. */
  lemma {:induction false} SummaryIsApply(s: Data, ops: seq<Op>)
    requires PointOps(ops)
    ensures Run(s, ops) == Perform(s, Summary(ops))
    decreases |ops|
  {
    if ops != [] { SummaryIsApply(s, ops[..|ops| - 1]); }
  }

  // --- key order --------------------------------------------------------

  predicate Before(a: Key, b: Key) {
    Less(Encode(a), Encode(b))
  }

  lemma KeysAreOrdered()
    ensures StrictOrder(Before)
  {
    forall a: Key ensures !Before(a, a) { LessIrreflexive(Encode(a)); }
    forall a: Key, b: Key, c: Key | Before(a, b) && Before(b, c) ensures Before(a, c) {
      LessTransitive(Encode(a), Encode(b), Encode(c));
    }
    forall a: Key, b: Key ensures a == b || Before(a, b) || Before(b, a) {
      LessTotal(Encode(a), Encode(b));
      if Encode(a) == Encode(b) { EncodeIsInjective(a, b); }
    }
  }

  /** The engine as the registry holds it. */
  class Engine {
    var data: Data

    constructor (s: Data)
      ensures data == s
    {
      data := s;
    }

    method Apply(ops: seq<Op>)
      modifies this
      ensures data == Run(old(data), ops)
    {
      var i := 0;
      while i < |ops|
        invariant 0 <= i <= |ops| && data == Run(old(data), ops[..i])
      {
        assert ops[..i + 1][..i] == ops[..i];
        data := ApplyOp(data, ops[i]);
        i := i + 1;
      }
      assert ops[..|ops|] == ops;
    }

    method Scan(g: Range, startAfter: Option<Key>, limit: nat) returns (page: Page<Key>)
      requires limit > 0
      ensures IsPage(Before, Pool(data, g), startAfter, limit, page)
    {
      KeysAreOrdered();
      page := TakePage(Before, Pool(data, g), startAfter, limit);
    }
  }

  // --- refinement to bytes ---------------------------------------------

  /** What the key schema owes the store: distinct encodings and exact scan prefixes. */
  ghost predicate Schema(enc: Key -> bytes, pre: Range -> bytes) {
    && Injective(enc)
    && (forall k, g :: StartsWith(enc(k), pre(g)) <==> InRange(k, g))
  }

  lemma KeySchema()
    ensures Schema(Encode, EncodeRange)
  {
    forall a: Key, b: Key | Encode(a) == Encode(b) ensures a == b { EncodeIsInjective(a, b); }
    forall k: Key, g: Range ensures StartsWith(Encode(k), EncodeRange(g)) <==> InRange(k, g) { PrefixesAreExact(k, g); }
  }

  /** The bytes on disk for a typed store, under whatever record codec is in use. */
  ghost function Image<K(!new), V, L(!new)>(s: map<K, V>, enc: K -> L, codec: V -> bytes): (db: map<L, bytes>)
    requires Injective(enc)
    ensures forall k :: k in s ==> enc(k) in db && db[enc(k)] == codec(s[k])
    ensures forall b :: b in db ==> exists k :: k in s && enc(k) == b
    decreases s.Keys
  {
    if s == map[] then map[]
    else
      var k :| k in s;
      Image(s - {k}, enc, codec)[enc(k) := codec(s[k])]
  }

  lemma ImageOfPut<K(!new), V, L(!new)>(s: map<K, V>, k: K, v: V, enc: K -> L, codec: V -> bytes)
    requires Injective(enc)
    ensures Image(s, enc, codec)[enc(k) := codec(v)] == Image(s[k := v], enc, codec)
  {}

  lemma ImageOfDelete<K(!new), V, L(!new)>(s: map<K, V>, k: K, enc: K -> L, codec: V -> bytes)
    requires Injective(enc)
    ensures Image(s, enc, codec) - {enc(k)} == Image(s - {k}, enc, codec)
  {}

  ghost function Kept<A, W>(m: map<A, W>, keep: A -> bool): map<A, W> {
    m - (set k | k in m && !keep(k))
  }

  lemma ImageOfFilter<K(!new), V, L(!new)>(s: map<K, V>, keep: K -> bool, keepEncoded: L -> bool, enc: K -> L, codec: V -> bytes)
    requires Injective(enc) && forall k :: keep(k) == keepEncoded(enc(k))
    ensures var db := Image(s, enc, codec);
      Kept(db, keepEncoded) == Image(Kept(s, keep), enc, codec)
  {}

  function EncodeOp(op: Op, enc: Key -> bytes, pre: Range -> bytes, codec: Val -> bytes): ByteOp {
    match op
    case Put(k, v) => MetaOp.Put(enc(k), codec(v))
    case Delete(k) => MetaOp.Delete(enc(k))
    case DeletePrefix(g) => MetaOp.DeletePrefix(pre(g))
  }

  function EncodeOps(ops: seq<Op>, enc: Key -> bytes, pre: Range -> bytes, codec: Val -> bytes): seq<ByteOp> {
    seq(|ops|, i requires 0 <= i < |ops| => EncodeOp(ops[i], enc, pre, codec))
  }

  function Outside(g: Range): Key -> bool { k => !InRange(k, g) }

  function OutsideBytes(p: bytes): bytes -> bool { b => !StartsWith(b, p) }

  lemma TypedFilter(s: Data, g: Range)
    ensures ApplyOp(s, DeletePrefix(g)) == Kept(s, Outside(g))
  {}

  lemma ByteFilter(db: Db, p: bytes)
    ensures RedbOp(db, DeletePrefix(p)) == Kept(db, OutsideBytes(p))
  {}

  lemma FiltersAgree(enc: Key -> bytes, pre: Range -> bytes, g: Range)
    requires Schema(enc, pre)
    ensures forall k :: Outside(g)(k) == OutsideBytes(pre(g))(enc(k))
  {}

  lemma ImageOfDeletePrefix(s: Data, g: Range, enc: Key -> bytes, pre: Range -> bytes, codec: Val -> bytes)
    requires Schema(enc, pre)
    ensures RedbOp(Image(s, enc, codec), DeletePrefix(pre(g))) == Image(ApplyOp(s, DeletePrefix(g)), enc, codec)
  {
    FiltersAgree(enc, pre, g);
    TypedFilter(s, g);
    ByteFilter(Image(s, enc, codec), pre(g));
    ImageOfFilter(s, Outside(g), OutsideBytes(pre(g)), enc, codec);
  }

  lemma ImageOfOp(s: Data, op: Op, enc: Key -> bytes, pre: Range -> bytes, codec: Val -> bytes)
    requires Schema(enc, pre)
    ensures RedbOp(Image(s, enc, codec), EncodeOp(op, enc, pre, codec)) == Image(ApplyOp(s, op), enc, codec)
  {
    match op {
      case Put(k, v) => ImageOfPut(s, k, v, enc, codec);
      case Delete(k) => ImageOfDelete(s, k, enc, codec);
      case DeletePrefix(g) => ImageOfDeletePrefix(s, g, enc, pre, codec);
    }
  }

  lemma LastOp(db: Db, out: seq<ByteOp>, s: Data, ops: seq<Op>)
    requires out != [] && ops != []
    ensures RedbApply(db, out) == RedbOp(RedbApply(db, out[..|out| - 1]), out[|out| - 1])
    ensures Run(s, ops) == ApplyOp(Run(s, ops[..|ops| - 1]), ops[|ops| - 1])
  {}

  lemma {:induction false} BatchesRefineSchema(s: Data, ops: seq<Op>, enc: Key -> bytes, pre: Range -> bytes, codec: Val -> bytes)
    requires Schema(enc, pre)
    ensures RedbApply(Image(s, enc, codec), EncodeOps(ops, enc, pre, codec)) == Image(Run(s, ops), enc, codec)
    decreases |ops|
  {
    if ops != [] {
      var n := |ops| - 1;
      var db, out := Image(s, enc, codec), EncodeOps(ops, enc, pre, codec);
      BatchesRefineSchema(s, ops[..n], enc, pre, codec);
      assert out[..n] == EncodeOps(ops[..n], enc, pre, codec);
      ImageOfOp(Run(s, ops[..n]), ops[n], enc, pre, codec);
      LastOp(db, out, s, ops);
    }
  }

  /**
   Every registry batch means the same thing here, on redb, and on RocksDB - the last because
   every prefix the registry deletes has a successor.
   */
  lemma BatchesRefine(s: Data, ops: seq<Op>, codec: Val -> bytes)
    ensures Schema(Encode, EncodeRange)
    ensures var db, enc := Image(s, Encode, codec), EncodeOps(ops, Encode, EncodeRange, codec);
      && RedbApply(db, enc) == Image(Run(s, ops), Encode, codec)
      && RocksApply(db, enc) == Image(Run(s, ops), Encode, codec)
  {
    KeySchema();
    BatchesRefineSchema(s, ops, Encode, EncodeRange, codec);
    var enc := EncodeOps(ops, Encode, EncodeRange, codec);
    forall i | 0 <= i < |enc| && enc[i].DeletePrefix? ensures Successor(enc[i].prefix).Some? {
      RangesAreBounded(ops[i].prefix);
    }
    BoundedBatchesAgree(Image(s, Encode, codec), enc);
  }

  lemma RangesAreBounded(g: Range)
    ensures Successor(EncodeRange(g)).Some?
  {
    UnboundedPrefix(EncodeRange(g));
    assert EncodeRange(g)[0] == RangeLetter(g) != 255;
  }

  /** A typed page is the byte engine's page of the same prefix. */
  lemma PagesRefine(s: Data, codec: Val -> bytes, g: Range, startAfter: Option<Key>, limit: nat, page: Page<Key>)
    requires IsPage(Before, Pool(s, g), startAfter, limit, page)
    ensures Injective(Encode)
    ensures IsPage(Less, Under(Image(s, Encode, codec).Keys, EncodeRange(g)), MapOption(startAfter, Encode), limit, MapPage(page, Encode))
  {
    KeySchema();
    PoolImage(s, codec, Encode, EncodeRange, g);
    PagesMap(Before, Less, Encode, Pool(s, g), Under(Image(s, Encode, codec).Keys, EncodeRange(g)), startAfter, limit, page);
  }

  lemma PoolImage(s: Data, codec: Val -> bytes, enc: Key -> bytes, pre: Range -> bytes, g: Range)
    requires Schema(enc, pre)
    ensures forall k :: k in Pool(s, g) <==> enc(k) in Under(Image(s, enc, codec).Keys, pre(g))
    ensures forall b :: b in Under(Image(s, enc, codec).Keys, pre(g)) ==> exists k :: k in Pool(s, g) && b == enc(k)
  {
    var db := Image(s, enc, codec);
    forall b | b in Under(db.Keys, pre(g)) ensures exists k :: k in Pool(s, g) && b == enc(k) {
      var k :| k in s && enc(k) == b;
      assert k in Pool(s, g);
    }
  }
}
