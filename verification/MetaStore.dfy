/**
 The metadata engine boundary: batches of writes and bounded ordered scans, in the two shapes
 the registry ships. redb is the plain reading; RocksDB turns a prefix delete into a half-open
 range delete and bounds its iterators from above. Iterators are modelled as total-order walks.
 */
module MetaStore {
  import opened Bytes
  import opened Results
  import opened Paging

  /** One mutation. The registry layer uses the same shape over typed keys and ranges. */
  datatype MetaOp<K, V, R> = Put(key: K, value: V) | Delete(key: K) | DeletePrefix(prefix: R)

  type Db = map<bytes, bytes>
  type ByteOp = MetaOp<bytes, bytes, bytes>

  // --- prefix successor -------------------------------------------------

  function Successor(prefix: bytes): Option<bytes>
    decreases |prefix|
  {
    if prefix == [] then None
    else
      var n := |prefix| - 1;
      if prefix[n] < 255 then Some(prefix[..n] + [prefix[n] + 1]) else Successor(prefix[..n])
  }

  method PrefixSuccessor(prefix: bytes) returns (end: Option<bytes>)
    ensures end == Successor(prefix)
  {
    var e := prefix;
    while e != []
      invariant |e| <= |prefix| && Successor(prefix) == Successor(e)
      decreases |e|
    {
      var n := |e| - 1;
      if e[n] < 255 { return Some(e[..n] + [e[n] + 1]); }
      e := e[..n];
    }
    return None;
  }

  lemma {:induction false} LastByteRange(q: bytes, c: byte, k: bytes)
    requires c < 255
    ensures StartsWith(k, q + [c]) <==> !Less(k, q + [c]) && Less(k, q + [c + 1])
    decreases |q|
  {
    if q == [] {
      assert q + [c] == [c] && q + [c + 1] == [c + 1];
      if k != [] { assert k[..1] == [k[0]]; }
    } else if k != [] && k[0] == q[0] {
      LastByteRange(q[1..], c, k[1..]);
      var p := q + [c];
      assert p[1..] == q[1..] + [c] && (q + [c + 1])[1..] == q[1..] + [c + 1];
      StartsWithTail(k, p);
    } else {
      assert (q + [c])[0] == q[0] == (q + [c + 1])[0];
      if k != [] && |q + [c]| <= |k| { assert k[..|q + [c]|][0] == k[0]; }
    }
  }

  lemma StartsWithTail(k: bytes, p: bytes)
    requires k != [] && p != [] && k[0] == p[0]
    ensures StartsWith(k, p) <==> StartsWith(k[1..], p[1..])
  {
    if |p| <= |k| {
      assert k[..|p|] == [k[0]] + k[1..][..|p[1..]|];
      assert p == [p[0]] + p[1..];
    }
  }

  /** A trailing 0xff adds no bound of its own above. */
  lemma {:induction false} CarriedByteRange(q: bytes, k: bytes)
    ensures StartsWith(k, q + [255]) <==> StartsWith(k, q) && !Less(k, q + [255])
    decreases |q|
  {
    if q == [] {
      assert q + [255] == [255];
      if k != [] { assert k[..1] == [k[0]]; }
    } else if k != [] && k[0] == q[0] {
      CarriedByteRange(q[1..], k[1..]);
      assert (q + [255])[1..] == q[1..] + [255];
      StartsWithTail(k, q + [255]);
      StartsWithTail(k, q);
    } else {
      assert (q + [255])[0] == q[0];
      if k != [] && |q + [255]| <= |k| { assert k[..|q + [255]|][0] == k[0]; }
      if k != [] && |q| <= |k| { assert k[..|q|][0] == k[0]; }
    }
  }

  lemma AboveExtension(q: bytes, c: byte, k: bytes)
    requires !Less(k, q + [c])
    ensures !Less(k, q)
  {
    LessPrefix(q, [], [c]);
    assert q + [] == q;
    if Less(k, q) { LessTransitive(k, q, q + [c]); }
  }

  /**
   The keys under `p` are exactly the half-open range from `p` to its successor, and run to the
   end of the keyspace when `p` has none.
   */
  lemma {:induction false} PrefixIsRange(p: bytes, k: bytes)
    ensures Successor(p).Some? ==> (StartsWith(k, p) <==> !Less(k, p) && Less(k, Successor(p).value))
    ensures Successor(p).None? ==> (StartsWith(k, p) <==> !Less(k, p))
    decreases |p|
  {
    if p != [] {
      var n := |p| - 1;
      var q := p[..n];
      assert p == q + [p[n]];
      if p[n] < 255 {
        LastByteRange(q, p[n], k);
      } else {
        PrefixIsRange(q, k);
        CarriedByteRange(q, k);
        if !Less(k, p) { AboveExtension(q, 255, k); }
      }
    }
  }

  /** A prefix has no successor exactly when every byte of it is 0xff. */
  lemma {:induction false} UnboundedPrefix(p: bytes)
    ensures Successor(p).None? <==> forall i :: 0 <= i < |p| ==> p[i] == 255
    decreases |p|
  {
    if p != [] {
      var n := |p| - 1;
      UnboundedPrefix(p[..n]);
      assert p == p[..n] + [p[n]];
    }
  }

  // --- apply ------------------------------------------------------------

  function RedbOp(db: Db, op: ByteOp): Db {
    match op
    case Put(k, v) => db[k := v]
    case Delete(k) => db - {k}
    case DeletePrefix(p) => db - (set k | k in db && StartsWith(k, p))
  }

  function RedbApply(db: Db, ops: seq<ByteOp>): Db {
    if ops == [] then db else RedbOp(RedbApply(db, ops[..|ops| - 1]), ops[|ops| - 1])
  }

  /** `start` is the database the batch is being built against, `db` the effect so far. */
  function RocksOp(start: Db, db: Db, op: ByteOp): Db {
    match op
    case Put(k, v) => db[k := v]
    case Delete(k) => db - {k}
    case DeletePrefix(p) =>
      match Successor(p)
      case Some(end) => db - (set k | k in db && !Less(k, p) && Less(k, end))
      case None => db - (set k | k in start && StartsWith(k, p))
  }

  function RocksApply(db: Db, ops: seq<ByteOp>): Db {
    if ops == [] then db else RocksOp(db, RocksApply(db, ops[..|ops| - 1]), ops[|ops| - 1])
  }

  predicate Unbounded(op: ByteOp) {
    op.DeletePrefix? && Successor(op.prefix).None?
  }

  predicate Touches(op: ByteOp, k: bytes) {
    match op
    case Put(key, _) => key == k
    case Delete(key) => key == k
    case DeletePrefix(p) => StartsWith(k, p)
  }

  /** A put of `k` that nothing later in the batch undoes except unbounded prefix deletes. */
  ghost predicate LivePut(ops: seq<ByteOp>, i: int, k: bytes) {
    && 0 <= i < |ops| && ops[i].Put? && ops[i].key == k
    && forall l :: i < l < |ops| && Touches(ops[l], k) ==> Unbounded(ops[l])
  }

  /** Such a put, with an unbounded prefix delete after it that should have removed it. */
  ghost predicate Stranded(ops: seq<ByteOp>, k: bytes) {
    exists i, j :: 0 <= i < j < |ops| && LivePut(ops, i, k) && Unbounded(ops[j]) && Touches(ops[j], k)
  }

  /** What each op does to one key, read off without the map. */
  lemma OpsAtKey(start: Db, db: Db, op: ByteOp, k: bytes)
    ensures k in RedbOp(db, op) <==> if Touches(op, k) then op.Put? else k in db
    ensures k in RocksOp(start, db, op) <==>
            if Touches(op, k) && (Unbounded(op) ==> k in start) then op.Put? else k in db
    ensures k in RedbOp(db, op) ==> RedbOp(db, op)[k] == if Touches(op, k) then op.value else db[k]
    ensures k in RocksOp(start, db, op) ==> RocksOp(start, db, op)[k] == if op.Put? && op.key == k then op.value else db[k]
  {
    if op.DeletePrefix? { PrefixIsRange(op.prefix, k); }
  }

  lemma {:induction false} RocksAtKey(db: Db, ops: seq<ByteOp>, k: bytes)
    requires k !in db
    ensures k in RocksApply(db, ops) <==> exists i :: LivePut(ops, i, k)
    decreases |ops|
  {
    if ops != [] {
      var n := |ops| - 1;
      var front := ops[..n];
      RocksAtKey(db, front, k);
      OpsAtKey(db, RocksApply(db, front), ops[n], k);
      LivePutSnoc(ops, k);
      assert ops[n].Put? && ops[n].key == k ==> LivePut(ops, n, k);
      if k in RocksApply(db, ops) && Touches(ops[n], k) && ops[n].Put? {
      } else if k in RocksApply(db, ops) {
        var i :| LivePut(front, i, k);
        assert LivePut(ops, i, k);
      }
    }
  }

  lemma {:induction false} EnginesAtKey(db: Db, ops: seq<ByteOp>, k: bytes)
    ensures k in RedbApply(db, ops) ==> k in RocksApply(db, ops) && RocksApply(db, ops)[k] == RedbApply(db, ops)[k]
    ensures k in db ==> (k in RocksApply(db, ops) <==> k in RedbApply(db, ops))
    ensures k !in db ==> (k in RocksApply(db, ops) && k !in RedbApply(db, ops) <==> Stranded(ops, k))
    decreases |ops|
  {
    if ops != [] {
      var n := |ops| - 1;
      var front := ops[..n];
      EnginesAtKey(db, front, k);
      OpsAtKey(db, RocksApply(db, front), ops[n], k);
      OpsAtKey(db, RedbApply(db, front), ops[n], k);
      if k !in db {
        RocksAtKey(db, ops, k);
        StrandedSnoc(ops, k);
      }
    }
  }

  lemma StrandedSnoc(ops: seq<ByteOp>, k: bytes)
    requires ops != []
    ensures var n := |ops| - 1;
      Stranded(ops, k) <==>
        if !Touches(ops[n], k) then Stranded(ops[..n], k)
        else Unbounded(ops[n]) && exists i :: LivePut(ops, i, k)
  {
    var n := |ops| - 1;
    var front := ops[..n];
    LivePutSnoc(ops, k);
    if Stranded(ops, k) {
      var i, j :| 0 <= i < j < |ops| && LivePut(ops, i, k) && Unbounded(ops[j]) && Touches(ops[j], k);
      if !Touches(ops[n], k) {
        assert LivePut(front, i, k) && Unbounded(front[j]) && Touches(front[j], k);
      }
    }
    if !Touches(ops[n], k) && Stranded(front, k) {
      var i, j :| 0 <= i < j < |front| && LivePut(front, i, k) && Unbounded(front[j]) && Touches(front[j], k);
      assert LivePut(ops, i, k) && Unbounded(ops[j]) && Touches(ops[j], k);
    }
    if Touches(ops[n], k) && Unbounded(ops[n]) && exists i :: LivePut(ops, i, k) {
      var i :| LivePut(ops, i, k);
      assert i < n && LivePut(ops, i, k) && Unbounded(ops[n]) && Touches(ops[n], k);
    }
  }

  lemma LivePutSnoc(ops: seq<ByteOp>, k: bytes)
    requires ops != []
    ensures var n := |ops| - 1; forall i {:trigger LivePut(ops, i, k)} {:trigger LivePut(ops[..n], i, k)} ::
        LivePut(ops, i, k) <==>
        (i == n && ops[n].Put? && ops[n].key == k) ||
        (LivePut(ops[..n], i, k) && (Touches(ops[n], k) ==> Unbounded(ops[n])))
  {
    var n := |ops| - 1;
    var front := ops[..n];
    assert forall i :: 0 <= i < n ==> front[i] == ops[i];
    forall i: int
      ensures LivePut(ops, i, k) <==>
        (i == n && ops[n].Put? && ops[n].key == k) ||
        (LivePut(front, i, k) && (Touches(ops[n], k) ==> Unbounded(ops[n])))
    {
      if LivePut(front, i, k) && (Touches(ops[n], k) ==> Unbounded(ops[n])) {
        forall l | i < l < |ops| && Touches(ops[l], k) ensures Unbounded(ops[l]) {
          if l < n { assert front[l] == ops[l]; }
        }
      }
      if LivePut(ops, i, k) && i < n {
        forall l | i < l < |front| && Touches(front[l], k) ensures Unbounded(front[l]) { assert ops[l] == front[l]; }
      }
    }
  }

  /**
   Exactly when the two engines apply a batch alike: always, unless the batch itself puts a key
   the store did not hold and then prefix-deletes it with a prefix that has no successor.
   */
  lemma EnginesAgree(db: Db, ops: seq<ByteOp>)
    ensures RocksApply(db, ops) == RedbApply(db, ops) <==> !exists k :: k !in db && Stranded(ops, k)
  {
    forall k: bytes ensures
      && (k in RedbApply(db, ops) ==> k in RocksApply(db, ops) && RocksApply(db, ops)[k] == RedbApply(db, ops)[k])
      && (k in db ==> (k in RocksApply(db, ops) <==> k in RedbApply(db, ops)))
      && (k !in db ==> (k in RocksApply(db, ops) && k !in RedbApply(db, ops) <==> Stranded(ops, k)))
    {
      EnginesAtKey(db, ops, k);
    }
  }

  /** Every batch whose prefix deletes all have a successor. */
  lemma BoundedBatchesAgree(db: Db, ops: seq<ByteOp>)
    requires forall i :: 0 <= i < |ops| && ops[i].DeletePrefix? ==> Successor(ops[i].prefix).Some?
    ensures RocksApply(db, ops) == RedbApply(db, ops)
  {
    assert forall i :: 0 <= i < |ops| ==> !Unbounded(ops[i]);
    EnginesAgree(db, ops);
  }

  /** The disagreement is real: a put under 0xff followed by its prefix delete survives on RocksDB. */
  lemma EnginesCanDisagree()
    ensures exists db: Db, ops: seq<ByteOp> :: RocksApply(db, ops) != RedbApply(db, ops)
  {
    var db: Db := map[];
    var ops: seq<ByteOp> := [Put([255], []), DeletePrefix([255])];
    assert LivePut(ops, 0, [255]) && Unbounded(ops[1]) by { assert Successor([255]).None?; }
    assert Stranded(ops, [255]);
    EnginesAgree(db, ops);
  }

  // --- scans ------------------------------------------------------------

  lemma BytesAreOrdered()
    ensures StrictOrder(Less)
  {
    forall a: bytes ensures !Less(a, a) { LessIrreflexive(a); }
    forall a: bytes, b: bytes, c: bytes | Less(a, b) && Less(b, c) ensures Less(a, c) { LessTransitive(a, b, c); }
    forall a: bytes, b: bytes ensures a == b || Less(a, b) || Less(b, a) { LessTotal(a, b); }
  }

  /** Where a scan may start: strictly after its cursor, or at its prefix when it has none. */
  predicate Beyond(prefix: bytes, startAfter: Option<bytes>, k: bytes) {
    if startAfter.Some? then Less(startAfter.value, k) else !Less(k, prefix)
  }

  function From(keys: set<bytes>, prefix: bytes, startAfter: Option<bytes>): set<bytes> {
    set k | k in keys && Beyond(prefix, startAfter, k)
  }

  function Inside(prefix: bytes): bytes -> bool {
    (k: bytes) => StartsWith(k, prefix)
  }

  /** The keys one scan may serve, whatever cursor it was given. */
  ghost function Scannable(keys: set<bytes>, prefix: bytes, startAfter: Option<bytes>): set<bytes> {
    Reach(Less, From(keys, prefix, startAfter), Inside(prefix))
  }

  ghost function Under(keys: set<bytes>, prefix: bytes): set<bytes> {
    set k | k in keys && StartsWith(k, prefix)
  }

  lemma NothingBetween(prefix: bytes, startAfter: Option<bytes>, j: bytes, k: bytes)
    requires startAfter.Some? ==> StartsWith(startAfter.value, prefix)
    requires Beyond(prefix, startAfter, j) && Less(j, k) && StartsWith(k, prefix)
    ensures StartsWith(j, prefix)
  {
    var lo := if startAfter.Some? then startAfter.value else prefix;
    LessAsymmetric(j, k);
    if startAfter.Some? { LessAsymmetric(lo, j); }
    PrefixIsConvex(lo, j, k, prefix);
  }

  /** A cursor inside the prefix leaves the whole remainder of the prefix to serve. */
  lemma ScannableIsTheRest(keys: set<bytes>, prefix: bytes, startAfter: Option<bytes>)
    requires startAfter.Some? ==> StartsWith(startAfter.value, prefix)
    ensures Scannable(keys, prefix, startAfter) == Rest(Less, Under(keys, prefix), startAfter)
  {
    var rest := Rest(Less, Under(keys, prefix), startAfter);
    forall k | k in rest ensures k in Scannable(keys, prefix, startAfter) {
      PrefixIsFirst(k, prefix);
      forall j | j in From(keys, prefix, startAfter) && Less(j, k) ensures Inside(prefix)(j) {
        NothingBetween(prefix, startAfter, j, k);
      }
    }
  }

  lemma ScanIsPage(keys: set<bytes>, prefix: bytes, startAfter: Option<bytes>, limit: nat, page: Page<bytes>)
    requires startAfter.Some? ==> StartsWith(startAfter.value, prefix)
    requires IsPage(Less, Scannable(keys, prefix, startAfter), None, limit, page)
    ensures IsPage(Less, Under(keys, prefix), startAfter, limit, page)
  {
    ScannableIsTheRest(keys, prefix, startAfter);
    assert Rest(Less, Scannable(keys, prefix, startAfter), None) == Rest(Less, Under(keys, prefix), startAfter);
  }

  /** The values beside a page's keys. */
  ghost predicate Rows(db: Db, keys: seq<bytes>, values: seq<bytes>) {
    |values| == |keys| && forall i :: 0 <= i < |keys| ==> keys[i] in db && values[i] == db[keys[i]]
  }

  lemma StoredKeys(keys: set<bytes>, prefix: bytes, startAfter: Option<bytes>, limit: nat, page: Page<bytes>)
    requires IsPage(Less, Scannable(keys, prefix, startAfter), None, limit, page)
    ensures forall k :: k in page.keys ==> k in keys
  {
    forall k | k in page.keys ensures k in keys { assert k in Rest(Less, Scannable(keys, prefix, startAfter), None); }
  }

  method ValuesOf(db: Db, keys: seq<bytes>) returns (values: seq<bytes>)
    requires forall k :: k in keys ==> k in db
    ensures Rows(db, keys, values)
  {
    values := [];
    var i := 0;
    while i < |keys|
      invariant 0 <= i <= |keys| && Rows(db, keys[..i], values)
    {
      assert keys[i] in keys;
      values := values + [db[keys[i]]];
      i := i + 1;
    }
    assert keys[..|keys|] == keys;
  }

  class RedbEngine {
    var data: Db

    constructor (db: Db)
      ensures data == db
    {
      data := db;
    }

    method Apply(ops: seq<ByteOp>)
      modifies this
      ensures data == RedbApply(old(data), ops)
    {
      var i := 0;
      while i < |ops|
        invariant 0 <= i <= |ops| && data == RedbApply(old(data), ops[..i])
      {
        match ops[i] {
          case Put(k, v) => data := data[k := v];
          case Delete(k) => data := data - {k};
          case DeletePrefix(p) => data := data - (set k | k in data && StartsWith(k, p));
        }
        assert ops[..i + 1][..i] == ops[..i];
        i := i + 1;
      }
      assert ops[..|ops|] == ops;
    }

    method Scan(prefix: bytes, startAfter: Option<bytes>, limit: nat) returns (page: Page<bytes>, values: seq<bytes>)
      ensures Rows(data, page.keys, values)
      ensures limit == 0 ==> page == Page([], None)
      ensures limit > 0 ==> IsPage(Less, Scannable(data.Keys, prefix, startAfter), None, limit, page)
    {
      if limit == 0 { return Page([], None), []; }
      BytesAreOrdered();
      var served, more := WalkRange(Less, From(data.Keys, prefix, startAfter), Inside(prefix), limit);
      page := Page(served, if more then Some(served[limit - 1]) else None);
      StoredKeys(data.Keys, prefix, startAfter, limit, page);
      values := ValuesOf(data, page.keys);
    }

    method ExistsPrefix(prefix: bytes) returns (hit: bool)
      ensures hit <==> exists k :: k in data && StartsWith(k, prefix)
    {
      BytesAreOrdered();
      var from := set k | k in data.Keys && !Less(k, prefix);
      var at := Least(Less, from);
      assert forall k :: k in data.Keys && !Less(k, prefix) ==> k in from;
      hit := at.Some? && StartsWith(at.value, prefix);
      ExistsIsFirst(data.Keys, prefix, at);
    }
  }

  /** One seek answers prefix existence: the first key at or after the prefix is the only witness needed. */
  lemma ExistsIsFirst(keys: set<bytes>, prefix: bytes, at: Option<bytes>)
    requires at.Some? ==> at.value in keys && !Less(at.value, prefix)
    requires at.Some? ==> forall k :: k in keys && !Less(k, prefix) ==> k == at.value || Less(at.value, k)
    requires at.None? ==> forall k :: k in keys ==> Less(k, prefix)
    ensures (at.Some? && StartsWith(at.value, prefix)) <==> exists k :: k in keys && StartsWith(k, prefix)
  {
    forall k | k in keys && StartsWith(k, prefix) ensures at.Some? && StartsWith(at.value, prefix) {
      PrefixIsFirst(k, prefix);
      if k != at.value { LessAsymmetric(at.value, k); }
      LessIrreflexive(k);
      PrefixIsConvex(prefix, at.value, k, prefix);
    }
  }

  /** RocksDB's own batch vocabulary. */
  datatype Native = NativePut(key: bytes, value: bytes) | NativeDelete(key: bytes) | NativeDeleteRange(lo: bytes, hi: bytes)

  function NativeOp(db: Db, op: Native): Db {
    match op
    case NativePut(k, v) => db[k := v]
    case NativeDelete(k) => db - {k}
    case NativeDeleteRange(lo, hi) => db - (set k | k in db && !Less(k, lo) && Less(k, hi))
  }

  function NativeApply(db: Db, ops: seq<Native>): Db {
    if ops == [] then db else NativeOp(NativeApply(db, ops[..|ops| - 1]), ops[|ops| - 1])
  }

  lemma OneMoreDeleted(db: Db, out: seq<Native>, start: Db, doomed: seq<bytes>, i: nat)
    requires i < |doomed| && NativeApply(db, out) == start - Elements(doomed[..i])
    ensures NativeApply(db, out + [NativeDelete(doomed[i])]) == start - Elements(doomed[..i + 1])
  {
    assert doomed[..i + 1] == doomed[..i] + [doomed[i]];
    assert Elements(doomed[..i + 1]) == Elements(doomed[..i]) + {doomed[i]};
    assert (out + [NativeDelete(doomed[i])])[..|out|] == out;
  }

  class RocksEngine {
    var data: Db

    constructor (db: Db)
      ensures data == db
    {
      data := db;
    }

    /** Translate the batch, expanding an unbounded prefix delete by iterating the live database. */
    method Apply(ops: seq<ByteOp>)
      modifies this
      ensures data == RocksApply(old(data), ops)
    {
      BytesAreOrdered();
      var rocks: seq<Native> := [];
      var i := 0;
      while i < |ops|
        invariant 0 <= i <= |ops| && data == old(data)
        invariant NativeApply(data, rocks) == RocksApply(data, ops[..i])
      {
        assert ops[..i + 1][..i] == ops[..i];
        match ops[i] {
          case Put(k, v) => rocks := rocks + [NativePut(k, v)];
          case Delete(k) => rocks := rocks + [NativeDelete(k)];
          case DeletePrefix(p) =>
            var end := PrefixSuccessor(p);
            if end.Some? {
              rocks := rocks + [NativeDeleteRange(p, end.value)];
            } else {
              rocks := DeleteUnder(p, rocks);
            }
        }
        i := i + 1;
      }
      assert ops[..|ops|] == ops;
      data := NativeApply(data, rocks);
    }

    method DeleteUnder(p: bytes, rocks: seq<Native>) returns (out: seq<Native>)
      ensures NativeApply(data, out) == NativeApply(data, rocks) - (set k | k in data && StartsWith(k, p))
    {
      assert StrictOrder(Less) by { BytesAreOrdered(); }
      var doomed := WalkAll(Less, From(data.Keys, p, None), Inside(p));
      ScannableIsTheRest(data.Keys, p, None);
      assert Elements(doomed) == (set k | k in data && StartsWith(k, p));
      out := rocks;
      for i := 0 to |doomed|
        invariant NativeApply(data, out) == NativeApply(data, rocks) - Elements(doomed[..i])
      {
        OneMoreDeleted(data, out, NativeApply(data, rocks), doomed, i);
        out := out + [NativeDelete(doomed[i])];
      }
      assert doomed[..|doomed|] == doomed;
    }

    /** Seek to the cursor or the prefix, bounded above by the prefix's successor. */
    method Scan(prefix: bytes, startAfter: Option<bytes>, limit: nat) returns (page: Page<bytes>, values: seq<bytes>)
      ensures Rows(data, page.keys, values)
      ensures limit == 0 ==> page == Page([], None)
      ensures limit > 0 ==> IsPage(Less, Scannable(data.Keys, prefix, startAfter), None, limit, page)
    {
      if limit == 0 { return Page([], None), []; }
      var upper := PrefixSuccessor(prefix);
      var window := Window(data.Keys, prefix, startAfter, upper);
      assert StrictOrder(Less) by { BytesAreOrdered(); }
      WindowStart(data.Keys, prefix, startAfter);
      WindowIsScannable(data.Keys, prefix, startAfter);
      var served, more := WalkIterator(Less, window, startAfter, Inside(prefix), limit);
      page := Page(served, if more then Some(served[limit - 1]) else None);
      StoredKeys(data.Keys, prefix, startAfter, limit, page);
      values := ValuesOf(data, page.keys);
    }
  }

  /** Keys at or after the seek position and below the upper bound. */
  function Window(keys: set<bytes>, prefix: bytes, startAfter: Option<bytes>, upper: Option<bytes>): set<bytes> {
    var seek := if startAfter.Some? then startAfter.value else prefix;
    set k | k in keys && !Less(k, seek) && (upper.None? || Less(k, upper.value))
  }

  lemma WindowStart(keys: set<bytes>, prefix: bytes, startAfter: Option<bytes>)
    ensures startAfter.Some? ==> forall k :: k in Window(keys, prefix, startAfter, Successor(prefix)) ==>
        k == startAfter.value || Less(startAfter.value, k)
  {
    forall k | startAfter.Some? && k in Window(keys, prefix, startAfter, Successor(prefix))
      ensures k == startAfter.value || Less(startAfter.value, k)
    { LessTotal(k, startAfter.value); }
  }

  /** The upper bound and the inclusive seek change nothing a scan can see. */
  lemma WindowIsScannable(keys: set<bytes>, prefix: bytes, startAfter: Option<bytes>)
    ensures Reach(Less, Without(Window(keys, prefix, startAfter, Successor(prefix)), startAfter), Inside(prefix))
         == Scannable(keys, prefix, startAfter)
  {
    var window := Without(Window(keys, prefix, startAfter, Successor(prefix)), startAfter);
    var from := From(keys, prefix, startAfter);
    forall k | k in keys
      ensures k in window <==> k in from && (Successor(prefix).None? || Less(k, Successor(prefix).value))
    {
      if startAfter.Some? {
        LessTotal(k, startAfter.value);
        if Less(startAfter.value, k) { LessAsymmetric(startAfter.value, k); }
      }
    }
    forall k | k in from && StartsWith(k, prefix) ensures k in window { PrefixIsRange(prefix, k); }
    forall j, k | j in from && k in window && Less(j, k) ensures j in window {
      if Successor(prefix).Some? { LessTransitive(j, k, Successor(prefix).value); }
    }
  }

  /** Whatever the cursor, two scans that meet the engine contract over one store are the same page. */
  lemma ScansAgree(db: Db, prefix: bytes, startAfter: Option<bytes>, limit: nat, rocks: Page<bytes>, redb: Page<bytes>)
    requires IsPage(Less, Scannable(db.Keys, prefix, startAfter), None, limit, rocks)
    requires IsPage(Less, Scannable(db.Keys, prefix, startAfter), None, limit, redb)
    ensures rocks == redb
  {
    BytesAreOrdered();
    PageIsUnique(Less, Scannable(db.Keys, prefix, startAfter), None, limit, rocks, redb);
  }

  /** Resuming from each page's own cursor serves a prefix exactly once, in order. */
  lemma {:induction false} ScanPagesAreExact(db: Db, prefix: bytes, startAfter: Option<bytes>, limit: nat, pages: seq<Page<bytes>>)
    requires startAfter.Some? ==> StartsWith(startAfter.value, prefix)
    requires ScanPages(db, prefix, startAfter, limit, pages)
    ensures Ascending(Less, Served(pages))
    ensures Elements(Served(pages)) == Rest(Less, Under(db.Keys, prefix), startAfter)
  {
    BytesAreOrdered();
    ScanPagesFollow(db, prefix, startAfter, limit, pages);
    WalkIsExact(Less, limit, startAfter, Under(db.Keys, prefix), pages);
  }

  /** The pages an engine hands back to a caller that passes each cursor on until there is none. */
  ghost predicate ScanPages(db: Db, prefix: bytes, startAfter: Option<bytes>, limit: nat, pages: seq<Page<bytes>>)
    decreases |pages|
  {
    && pages != []
    && IsPage(Less, Scannable(db.Keys, prefix, startAfter), None, limit, pages[0])
    && (pages[0].next.None? <==> |pages| == 1)
    && (pages[0].next.Some? ==> ScanPages(db, prefix, pages[0].next, limit, pages[1..]))
  }

  lemma {:induction false} ScanPagesFollow(db: Db, prefix: bytes, startAfter: Option<bytes>, limit: nat, pages: seq<Page<bytes>>)
    requires startAfter.Some? ==> StartsWith(startAfter.value, prefix)
    requires ScanPages(db, prefix, startAfter, limit, pages)
    ensures Follows(Less, limit, startAfter, seq(|pages|, i => Under(db.Keys, prefix)), pages)
    decreases |pages|
  {
    ScanIsPage(db.Keys, prefix, startAfter, limit, pages[0]);
    var pools := seq(|pages|, i => Under(db.Keys, prefix));
    if pages[0].next.Some? {
      assert pages[0].next.value in pages[0].keys;
      assert pages[0].next.value in Under(db.Keys, prefix);
      ScanPagesFollow(db, prefix, pages[0].next, limit, pages[1..]);
      assert pools[1..] == seq(|pages[1..]|, i => Under(db.Keys, prefix));
    }
  }
}
