/**
 Pull counters end to end: increments accumulate in a bounded map, a flush drains the map and
 folds it into the stored hours with saturating addition, and a day window reads them back.
 */
module Counters {
  import opened Results
  import opened Keys
  import opened MetaStore
  import opened Store
  import opened Interner
  import opened Invariants

  // --- capped arithmetic ------------------------------------------------

  datatype Metric = ManifestPulls | BlobPulls | BytesOut

  function Get(c: Counts, m: Metric): nat {
    match m case ManifestPulls => c.manifestPulls case BlobPulls => c.blobPulls case BytesOut => c.bytesOut
  }

  /** Pulls saturate at 32 bits, bytes at 64. */
  function Limit(m: Metric): nat { if m.BytesOut? then 0xFFFF_FFFF_FFFF_FFFF else 0xFFFF_FFFF }

  function Capped(n: nat, m: Metric): nat { if n <= Limit(m) then n else Limit(m) }

  function Plus(a: Counts, b: Counts): (r: Counts)
    ensures forall m :: Get(r, m) == Get(a, m) + Get(b, m)
  {
    Counts(a.manifestPulls + b.manifestPulls, a.blobPulls + b.blobPulls, a.bytesOut + b.bytesOut)
  }

  lemma SameCounts(a: Counts, b: Counts)
    requires forall m :: Get(a, m) == Get(b, m)
    ensures a == b
  {
    assert Get(a, ManifestPulls) == Get(b, ManifestPulls) && Get(a, BlobPulls) == Get(b, BlobPulls) && Get(a, BytesOut) == Get(b, BytesOut);
  }

  /** Add one hour's increments, saturating each; an hour past the day is ignored. */
  function AddHour(h: Hours, hour: nat, c: Counts): (r: Hours)
    ensures forall i, m :: 0 <= i < 24 ==> Get(r[i], m) == if i == hour then Capped(Get(h[i], m) + Get(c, m), m) else Get(h[i], m)
  {
    if hour >= 24 then h
    else
      var x := h[hour];
      h[hour := Counts(Capped(x.manifestPulls + Capped(c.manifestPulls, ManifestPulls), ManifestPulls),
                       Capped(x.blobPulls + Capped(c.blobPulls, BlobPulls), BlobPulls),
                       Capped(x.bytesOut + c.bytesOut, BytesOut))]
  }

  // --- increments -------------------------------------------------------

  /** An increment against a slot; slots are compared and nothing else. */
  datatype Delta<K> = Delta(slot: K, counts: Counts)

  function Share<K(==)>(d: Delta<K>, q: K, m: Metric): nat { if d.slot == q then Get(d.counts, m) else 0 }

  function Sum<K(==)>(ds: seq<Delta<K>>, q: K, m: Metric): nat {
    if ds == [] then 0 else Sum(ds[..|ds| - 1], q, m) + Share(ds[|ds| - 1], q, m)
  }

  lemma SumSnoc<K>(ds: seq<Delta<K>>, d: Delta<K>, q: K, m: Metric)
    ensures Sum(ds + [d], q, m) == Sum(ds, q, m) + Share(d, q, m)
  {
    assert (ds + [d])[..|ds|] == ds;
  }

  lemma {:induction false} SumAppend<K>(a: seq<Delta<K>>, b: seq<Delta<K>>, q: K, m: Metric)
    ensures Sum(a + b, q, m) == Sum(a, q, m) + Sum(b, q, m)
    decreases |b|
  {
    if b == [] {
      assert a + b == a;
    } else {
      SumAppend(a, b[..|b| - 1], q, m);
      assert (a + b)[..|a + b| - 1] == a + b[..|b| - 1];
    }
  }

  /** Taking one increment out of the middle. */
  lemma SumWithout<K>(b: seq<Delta<K>>, i: nat, q: K, m: Metric)
    requires i < |b|
    ensures Sum(b, q, m) == Sum(b[..i] + b[i + 1..], q, m) + Share(b[i], q, m)
  {
    var x, y := b[..i], b[i + 1..];
    assert b == (x + [b[i]]) + y;
    SumAppend(x + [b[i]], y, q, m);
    SumSnoc(x, b[i], q, m);
    SumAppend(x, y, q, m);
  }

  lemma WithoutOne<T>(b: seq<T>, i: nat)
    requires i < |b|
    ensures multiset(b) == multiset(b[..i] + b[i + 1..]) + multiset{b[i]}
  {
    assert b == b[..i] + [b[i]] + b[i + 1..];
  }

  lemma WithoutLast<T>(a: seq<T>)
    requires a != []
    ensures multiset(a) == multiset(a[..|a| - 1]) + multiset{a[|a| - 1]}
  {
    assert a == a[..|a| - 1] + [a[|a| - 1]];
  }

  lemma Removed<T>(a: seq<T>, b: seq<T>, i: nat)
    requires a != [] && i < |b| && b[i] == a[|a| - 1] && multiset(a) == multiset(b)
    ensures multiset(b[..i] + b[i + 1..]) == multiset(a[..|a| - 1])
  {
    WithoutOne(b, i);
    WithoutLast(a);
    assert multiset(b) - multiset{b[i]} == multiset(b[..i] + b[i + 1..]);
    assert multiset(a) - multiset{b[i]} == multiset(a[..|a| - 1]);
  }

  /** Only which increments there were matters, not their order. */
  lemma {:induction false} SumIsOrderless<K>(a: seq<Delta<K>>, b: seq<Delta<K>>, q: K, m: Metric)
    requires multiset(a) == multiset(b)
    ensures Sum(a, q, m) == Sum(b, q, m)
    decreases |a|
  {
    if a == [] {
      assert |multiset(b)| == 0;
    } else {
      var x := a[|a| - 1];
      assert x in multiset(a);
      var i :| 0 <= i < |b| && b[i] == x;
      Removed(a, b, i);
      SumIsOrderless(a[..|a| - 1], b[..i] + b[i + 1..], q, m);
      SumWithout(b, i, q, m);
    }
  }

  // --- accumulation -----------------------------------------------------

  const MAX_BUCKETS := 50_000

  function At<K(==)>(c: map<K, Counts>, q: K): Counts { if q in c then c[q] else NoCounts }

  ghost predicate Tallies<K(!new)>(dirty: map<K, Counts>, pending: seq<Delta<K>>) {
    forall q, m :: Sum(pending, q, m) == Get(At(dirty, q), m)
  }

  lemma TallyOne<K(!new)>(dirty: map<K, Counts>, pending: seq<Delta<K>>, d: Delta<K>)
    requires Tallies(dirty, pending)
    ensures Tallies(dirty[d.slot := Plus(At(dirty, d.slot), d.counts)], pending + [d])
  {
    forall q, m ensures Sum(pending + [d], q, m) == Get(At(dirty[d.slot := Plus(At(dirty, d.slot), d.counts)], q), m) {
      SumSnoc(pending, d, q, m);
    }
  }

  lemma FirstOfItsKind(c: Counts)
    ensures Plus(NoCounts, c) == c
  {
    SameCounts(Plus(NoCounts, c), c);
  }

  /** Increments waiting for the next flush. */
  class Accumulator<K(==, !new)> {
    var dirty: map<K, Counts>
    var dropped: nat
    ghost var pending: seq<Delta<K>>
    ghost var refused: seq<Delta<K>>

    /** The map holds exactly the accepted increments; the tally counts exactly the refused ones. */
    ghost predicate Valid()
      reads this
    {
      |dirty| <= MAX_BUCKETS && Tallies(dirty, pending) && dropped == |refused|
    }

    constructor ()
      ensures Valid() && pending == [] && refused == []
    {
      dirty, dropped, pending, refused := map[], 0, [], [];
    }

    /** Into an existing bucket always; into a new one only while there is room. */
    method Add(d: Delta<K>)
      requires Valid()
      modifies this
      ensures Valid()
      ensures var room := d.slot in old(dirty) || |old(dirty)| < 50_000;
        && pending == (if room then old(pending) + [d] else old(pending))
        && refused == (if room then old(refused) else old(refused) + [d])
    {
      TallyOne(dirty, pending, d);
      if d.slot in dirty {
        SameSize(dirty, d.slot, Plus(dirty[d.slot], d.counts));
        dirty, pending := dirty[d.slot := Plus(dirty[d.slot], d.counts)], pending + [d];
        return;
      }
      if |dirty| >= MAX_BUCKETS {
        dropped, refused := dropped + 1, refused + [d];
        return;
      }
      OneMore(dirty, d.slot, d.counts);
      FirstOfItsKind(d.counts);
      dirty, pending := dirty[d.slot := d.counts], pending + [d];
    }

    /** Take everything waiting, one entry per bucket, leaving nothing behind. */
    method Drain() returns (out: seq<Delta<K>>)
      requires Valid()
      modifies this
      ensures Valid() && dirty == map[] && pending == [] && refused == old(refused)
      ensures forall q, m :: Sum(out, q, m) == Sum(old(pending), q, m)
      ensures forall i, j :: 0 <= i < j < |out| ==> out[i].slot != out[j].slot
    {
      out := Listed(dirty);
      dirty, pending := map[], [];
    }

    method TakeDropped() returns (n: nat)
      requires Valid()
      modifies this`dropped, this`refused
      ensures Valid() && n == |old(refused)| && refused == []
    {
      n := dropped;
      dropped, refused := 0, [];
    }
  }

  lemma SameSize<K>(c: map<K, Counts>, q: K, v: Counts)
    requires q in c
    ensures |c[q := v]| == |c|
  {
    assert c[q := v].Keys == c.Keys;
  }

  lemma OneMore<K>(c: map<K, Counts>, q: K, v: Counts)
    requires q !in c
    ensures |c[q := v]| == |c| + 1
  {
    assert c[q := v].Keys == c.Keys + {q};
  }

  /** The entries of a map, in some order. */
  method Listed<K(==, !new)>(c: map<K, Counts>) returns (out: seq<Delta<K>>)
    ensures Tallies(c, out)
    ensures forall i, j :: 0 <= i < j < |out| ==> out[i].slot != out[j].slot
  {
    out := [];
    var left := c.Keys;
    ghost var done: map<K, Counts> := map[];
    while left != {}
      invariant left <= c.Keys && done.Keys == c.Keys - left
      invariant forall q :: q in done ==> done[q] == c[q]
      invariant Tallies(done, out)
      invariant forall i :: 0 <= i < |out| ==> out[i].slot in done
      invariant forall i, j :: 0 <= i < j < |out| ==> out[i].slot != out[j].slot
      decreases left
    {
      var q :| q in left;
      TallyOne(done, out, Delta(q, c[q]));
      FirstOfItsKind(c[q]);
      out, left, done := out + [Delta(q, c[q])], left - {q}, done[q := c[q]];
    }
    assert done == c;
  }

  // --- what is counted --------------------------------------------------

  datatype Subject = OfManifest(digest: Digest) | OfTag(tag: Tag) | OfRepo

  datatype Bucket = Bucket(repo: Name, subject: Subject, day: Short)

  datatype Slot<B> = Slot(bucket: B, hour: nat)

  /** What one manifest pull is worth: the manifest, the tag if there was one, the repository. */
  function PullDeltas(repo: Name, tag: Option<Tag>, digest: Digest, day: Short, hour: nat): seq<Delta<Slot<Bucket>>> {
    var one := Counts(1, 0, 0);
    [Delta(Slot(Bucket(repo, OfManifest(digest), day), hour), one)]
    + (match tag case Some(t) => [Delta(Slot(Bucket(repo, OfTag(t), day), hour), one)] case None => [])
    + [Delta(Slot(Bucket(repo, OfRepo, day), hour), one)]
  }

  /** A bucket of that pull: its manifest's, its repository's, or its tag's if it came by tag. */
  predicate Pulled(q: Slot<Bucket>, repo: Name, tag: Option<Tag>, digest: Digest, day: Short, hour: nat) {
    && q.hour == hour && q.bucket.repo == repo && q.bucket.day == day
    && match q.bucket.subject
       case OfManifest(d) => d == digest
       case OfTag(t) => tag == Some(t)
       case OfRepo => true
  }

  /** One pull counts once for each of its buckets, as a manifest pull and as nothing else. */
  lemma PullCountsOnce(repo: Name, tag: Option<Tag>, digest: Digest, day: Short, hour: nat, q: Slot<Bucket>, m: Metric)
    ensures Sum(PullDeltas(repo, tag, digest, day, hour), q, m) == if m.ManifestPulls? && Pulled(q, repo, tag, digest, day, hour) then 1 else 0
  {
    var one := Counts(1, 0, 0);
    var x, z := Delta(Slot(Bucket(repo, OfManifest(digest), day), hour), one), Delta(Slot(Bucket(repo, OfRepo, day), hour), one);
    if tag.Some? {
      var y := Delta(Slot(Bucket(repo, OfTag(tag.value), day), hour), one);
      assert [x] + [y] + [z] == [x, y, z];
      SumOfThree(x, y, z, q, m);
    } else {
      assert [x] + [] + [z] == [x, z];
      SumOfTwo(x, z, q, m);
    }
  }

  /** A blob served counts for the repository alone: one pull and the bytes that went out. */
  function BytesDeltas(repo: Name, day: Short, hour: nat, bytes: nat): seq<Delta<Slot<Bucket>>> {
    [Delta(Slot(Bucket(repo, OfRepo, day), hour), Counts(0, 1, bytes))]
  }

  lemma BytesCountOnce(repo: Name, day: Short, hour: nat, bytes: nat, q: Slot<Bucket>, m: Metric)
    ensures Sum(BytesDeltas(repo, day, hour, bytes), q, m) ==
      if q.bucket.repo == repo && q.bucket.subject.OfRepo? && q.bucket.day == day && q.hour == hour
      then (match m case ManifestPulls => 0 case BlobPulls => 1 case BytesOut => bytes)
      else 0
  {
    SumOfOne(Delta(Slot(Bucket(repo, OfRepo, day), hour), Counts(0, 1, bytes)), q, m);
  }

  lemma SumOfOne<K>(x: Delta<K>, q: K, m: Metric)
    ensures Sum([x], q, m) == Share(x, q, m)
  {
    var none: seq<Delta<K>> := [];
    SumSnoc(none, x, q, m);
    assert none + [x] == [x];
  }

  lemma SumOfTwo<K>(x: Delta<K>, y: Delta<K>, q: K, m: Metric)
    ensures Sum([x, y], q, m) == Share(x, q, m) + Share(y, q, m)
  {
    SumOfOne(x, q, m);
    SumSnoc([x], y, q, m);
    assert [x] + [y] == [x, y];
  }

  lemma SumOfThree<K>(x: Delta<K>, y: Delta<K>, z: Delta<K>, q: K, m: Metric)
    ensures Sum([x, y, z], q, m) == Share(x, q, m) + Share(y, q, m) + Share(z, q, m)
  {
    SumOfTwo(x, y, q, m);
    SumSnoc([x, y], z, q, m);
    assert [x, y] + [z] == [x, y, z];
  }

  /** Every increment is accepted or tallied as dropped, and none is both. */
  ghost predicate Offered<K>(pending: seq<Delta<K>>, refused: seq<Delta<K>>, pending': seq<Delta<K>>, refused': seq<Delta<K>>, ds: seq<Delta<K>>) {
    && pending <= pending' && refused <= refused'
    && multiset(pending'[|pending|..]) + multiset(refused'[|refused|..]) == multiset(ds)
  }

  lemma OfferedOne<K>(p: seq<Delta<K>>, r: seq<Delta<K>>, p1: seq<Delta<K>>, r1: seq<Delta<K>>, p2: seq<Delta<K>>, r2: seq<Delta<K>>,
                      ds: seq<Delta<K>>, i: nat)
    requires i < |ds| && Offered(p, r, p1, r1, ds[..i])
    requires (p2 == p1 + [ds[i]] && r2 == r1) || (p2 == p1 && r2 == r1 + [ds[i]])
    ensures Offered(p, r, p2, r2, ds[..i + 1])
  {
    assert ds[..i + 1] == ds[..i] + [ds[i]];
    assert p2[|p|..] == p1[|p|..] + p2[|p1|..] && r2[|r|..] == r1[|r|..] + r2[|r1|..];
  }

  lemma NothingOffered<K>(p: seq<Delta<K>>, r: seq<Delta<K>>, ds: seq<Delta<K>>)
    ensures Offered(p, r, p, r, ds[..0])
  {}

  /** Offer a run of increments one by one. */
  method Offer<K(==, !new)>(counters: Accumulator<K>, ds: seq<Delta<K>>)
    requires counters.Valid()
    modifies counters
    ensures counters.Valid()
    ensures Offered(old(counters.pending), old(counters.refused), counters.pending, counters.refused, ds)
  {
    var i := 0;
    NothingOffered(counters.pending, counters.refused, ds);
    while i < |ds|
      invariant 0 <= i <= |ds| && counters.Valid()
      invariant Offered(old(counters.pending), old(counters.refused), counters.pending, counters.refused, ds[..i])
    {
      ghost var p1, r1 := counters.pending, counters.refused;
      counters.Add(ds[i]);
      OfferedOne(old(counters.pending), old(counters.refused), p1, r1, counters.pending, counters.refused, ds, i);
      i := i + 1;
    }
    assert ds[..|ds|] == ds;
  }

  method RecordManifestPull(counters: Accumulator<Slot<Bucket>>, enabled: bool, repo: Name, tag: Option<Tag>, digest: Digest, day: Short, hour: nat)
    requires counters.Valid()
    modifies counters
    ensures counters.Valid()
    ensures Offered(old(counters.pending), old(counters.refused), counters.pending, counters.refused,
                    if enabled then PullDeltas(repo, tag, digest, day, hour) else [])
  {
    if !enabled { return; }
    Offer(counters, PullDeltas(repo, tag, digest, day, hour));
  }

  method RecordBlobBytes(counters: Accumulator<Slot<Bucket>>, enabled: bool, repo: Name, day: Short, hour: nat, bytes: nat)
    requires counters.Valid()
    modifies counters
    ensures counters.Valid()
    ensures Offered(old(counters.pending), old(counters.refused), counters.pending, counters.refused,
                    if enabled then BytesDeltas(repo, day, hour, bytes) else [])
  {
    if !enabled { return; }
    Offer(counters, BytesDeltas(repo, day, hour, bytes));
  }

  // --- the flush --------------------------------------------------------

  function Zeros(): Hours { seq(24, i => NoCounts) }

  function StoredHours(s: Data, k: Key): Hours {
    if k in s && s[k].CountV? then s[k].hours else Zeros()
  }

  /** The key a single node writes a bucket under: shard 0. */
  function CounterAt(r: RepoId, subject: Subject, day: Short): Key {
    match subject
    case OfManifest(d) => CountManifest(r, d, day, 0)
    case OfTag(t) => CountTag(r, t, day, 0)
    case OfRepo => CountRepo(r, day, 0)
  }

  /** The scan prefix a subject's counters are read under. */
  function CountersOf(r: RepoId, subject: Subject): Range {
    match subject
    case OfManifest(d) => CountersOfManifest(r, d)
    case OfTag(t) => CountersOfTag(r, t)
    case OfRepo => CountersIn(RepoScope, r)
  }

  function Fold(h: Hours, ds: seq<Delta<nat>>): Hours {
    if ds == [] then h else AddHour(Fold(h, ds[..|ds| - 1]), ds[|ds| - 1].slot, ds[|ds| - 1].counts)
  }

  /** Folding increments in one by one is adding their sum once, however they are grouped. */
  lemma {:induction false} FoldIsCappedSum(h: Hours, ds: seq<Delta<nat>>, hour: nat, m: Metric)
    requires hour < 24
    ensures Get(Fold(h, ds)[hour], m) == Capped(Get(h[hour], m) + Sum(ds, hour, m), m)
    decreases |ds|
  {
    if ds == [] {
      assert Fits(h[hour]);
    } else {
      FoldIsCappedSum(h, ds[..|ds| - 1], hour, m);
    }
  }

  function Entries<B(==)>(folded: map<B, seq<Delta<nat>>>, b: B): seq<Delta<nat>> {
    if b in folded then folded[b] else []
  }

  /** The increments grouped by bucket hold what the flat list held. */
  ghost predicate Grouped<B(!new)>(folded: map<B, seq<Delta<nat>>>, ds: seq<Delta<Slot<B>>>) {
    forall b, hour, m :: Sum(Entries(folded, b), hour, m) == Sum(ds, Slot(b, hour), m)
  }

  /** The buckets a run of increments touches. */
  function BucketsOf<B>(ds: seq<Delta<Slot<B>>>): set<B> { set d | d in ds :: d.slot.bucket }

  method GroupDeltas<B(==, !new)>(ds: seq<Delta<Slot<B>>>) returns (folded: map<B, seq<Delta<nat>>>)
    ensures Grouped(folded, ds) && folded.Keys == BucketsOf(ds)
  {
    folded := map[];
    var i := 0;
    while i < |ds|
      invariant 0 <= i <= |ds| && Grouped(folded, ds[..i]) && folded.Keys == BucketsOf(ds[..i])
    {
      var b := ds[i].slot.bucket;
      GroupOne(folded, ds[..i], ds[i]);
      assert ds[..i + 1] == ds[..i] + [ds[i]];
      folded := folded[b := Entries(folded, b) + [Delta(ds[i].slot.hour, ds[i].counts)]];
      i := i + 1;
    }
    assert ds[..|ds|] == ds;
  }

  lemma GroupOne<B(!new)>(folded: map<B, seq<Delta<nat>>>, ds: seq<Delta<Slot<B>>>, d: Delta<Slot<B>>)
    requires Grouped(folded, ds)
    ensures Grouped(folded[d.slot.bucket := Entries(folded, d.slot.bucket) + [Delta(d.slot.hour, d.counts)]], ds + [d])
  {
    var more := folded[d.slot.bucket := Entries(folded, d.slot.bucket) + [Delta(d.slot.hour, d.counts)]];
    forall b, hour, m ensures Sum(Entries(more, b), hour, m) == Sum(ds + [d], Slot(b, hour), m) {
      SumSnoc(ds, d, Slot(b, hour), m);
      SumSnoc(Entries(folded, b), Delta(d.slot.hour, d.counts), hour, m);
    }
  }

  function KeyOf(s: Data, b: Bucket): Option<Key> {
    match IdOf(s, b.repo) case Some(r) => Some(CounterAt(r, b.subject, b.day)) case None => None
  }

  /** Names and ids being one to one, two buckets never share a key. */
  lemma KeysDiffer(s: Data, a: Bucket, b: Bucket)
    requires Bijection(s) && KeyOf(s, a).Some? && KeyOf(s, a) == KeyOf(s, b)
    ensures a == b
  {
    assert N(a.repo) in s && N(b.repo) in s && IdOf(s, a.repo) == IdOf(s, b.repo);
  }

  /** One key after the buckets `done` have been written. */
  ghost predicate WrittenFor(s: Data, s': Data, folded: map<Bucket, seq<Delta<nat>>>, done: set<Bucket>) {
    && (forall b :: b in done && KeyOf(s, b).Some? ==>
          KeyOf(s, b).value in s' && s'[KeyOf(s, b).value] == CountV(Fold(StoredHours(s, KeyOf(s, b).value), Entries(folded, b))))
    && (forall k: Key :: SameKey(s, s', k) || exists b :: b in done && KeyOf(s, b) == Some(k))
  }

  lemma WriteBucket(s: Data, s': Data, folded: map<Bucket, seq<Delta<nat>>>, done: set<Bucket>, b: Bucket)
    requires Bijection(s) && WrittenFor(s, s', folded, done) && b !in done && KeyOf(s, b).Some?
    ensures SameKey(s, s', KeyOf(s, b).value)
    ensures var k := KeyOf(s, b).value;
      WrittenFor(s, s'[k := CountV(Fold(StoredHours(s, k), Entries(folded, b)))], folded, done + {b})
  {
    var k := KeyOf(s, b).value;
    forall a | a in done && KeyOf(s, a).Some? ensures KeyOf(s, a).value != k {
      if KeyOf(s, a) == KeyOf(s, b) { KeysDiffer(s, a, b); }
    }
    var s2 := s'[k := CountV(Fold(StoredHours(s, k), Entries(folded, b)))];
    forall j: Key ensures SameKey(s, s2, j) || exists a :: a in done + {b} && KeyOf(s, a) == Some(j) {
      if j == k { assert b in done + {b}; }
      else if !SameKey(s, s', j) { var a :| a in done && KeyOf(s, a) == Some(j); assert a in done + {b}; }
    }
  }

  lemma SkipBucket(s: Data, s': Data, folded: map<Bucket, seq<Delta<nat>>>, done: set<Bucket>, b: Bucket)
    requires WrittenFor(s, s', folded, done) && KeyOf(s, b).None?
    ensures WrittenFor(s, s', folded, done + {b})
  {
    forall j: Key ensures SameKey(s, s', j) || exists a :: a in done + {b} && KeyOf(s, a) == Some(j) {
      if !SameKey(s, s', j) { var a :| a in done && KeyOf(s, a) == Some(j); assert a in done + {b}; }
    }
  }

  ghost predicate EachKeyOnce(s: Data, batch: seq<Op>, done: set<Bucket>) {
    && (forall op :: op in batch ==> op.Put? && exists b :: b in done && KeyOf(s, b) == Some(op.key))
    && (forall i, j :: 0 <= i < j < |batch| ==> batch[i].Put? && batch[j].Put? && batch[i].key != batch[j].key)
  }

  lemma OnceMore(s: Data, batch: seq<Op>, done: set<Bucket>, b: Bucket, v: Val)
    requires Bijection(s) && EachKeyOnce(s, batch, done) && b !in done && KeyOf(s, b).Some?
    ensures EachKeyOnce(s, batch + [Put(KeyOf(s, b).value, v)], done + {b})
  {
    var more := batch + [Put(KeyOf(s, b).value, v)];
    forall op | op in more ensures op.Put? && exists a :: a in done + {b} && KeyOf(s, a) == Some(op.key) {
      if op in batch { var a :| a in done && KeyOf(s, a) == Some(op.key); assert a in done + {b}; }
      else { assert b in done + {b}; }
    }
    forall i, j | 0 <= i < j < |more| ensures more[i].Put? && more[j].Put? && more[i].key != more[j].key {
      if j == |batch| {
        assert more[i] in batch;
        var a :| a in done && KeyOf(s, a) == Some(more[i].key);
        if KeyOf(s, a) == KeyOf(s, b) { KeysDiffer(s, a, b); }
      }
    }
  }

  lemma OnceSkipped(s: Data, batch: seq<Op>, done: set<Bucket>, b: Bucket)
    requires EachKeyOnce(s, batch, done)
    ensures EachKeyOnce(s, batch, done + {b})
  {
    forall op | op in batch ensures op.Put? && exists a :: a in done + {b} && KeyOf(s, a) == Some(op.key) {
      var a :| a in done && KeyOf(s, a) == Some(op.key);
      assert a in done + {b};
    }
  }

  /** A bucket's waiting increments, added one by one to the hours it already has. */
  method FoldEntries(stored: Hours, entries: seq<Delta<nat>>) returns (hours: Hours)
    ensures hours == Fold(stored, entries)
  {
    hours := stored;
    var i := 0;
    while i < |entries|
      invariant 0 <= i <= |entries| && hours == Fold(stored, entries[..i])
    {
      assert entries[..i + 1][..i] == entries[..i];
      hours := AddHour(hours, entries[i].slot, entries[i].counts);
      i := i + 1;
    }
    assert entries[..|entries|] == entries;
  }

  /** The batch so far writes exactly the buckets `done`, each to a key of its own. */
  ghost predicate FlushedSoFar(s: Data, batch: seq<Op>, folded: map<Bucket, seq<Delta<nat>>>, done: set<Bucket>) {
    WrittenFor(s, Run(s, batch), folded, done) && EachKeyOnce(s, batch, done) && |batch| == |Known(s, done)|
  }

  /** The buckets whose repository is there. */
  ghost function Known(s: Data, buckets: set<Bucket>): set<Bucket> { set b | b in buckets && KeyOf(s, b).Some? }

  lemma KnownMore(s: Data, done: set<Bucket>, b: Bucket)
    requires b !in done
    ensures |Known(s, done + {b})| == |Known(s, done)| + if KeyOf(s, b).Some? then 1 else 0
  {
    assert Known(s, done + {b}) == Known(s, done) + if KeyOf(s, b).Some? then {b} else {};
  }

  lemma FlushBucket(s: Data, batch: seq<Op>, folded: map<Bucket, seq<Delta<nat>>>, done: set<Bucket>, b: Bucket)
    requires Bijection(s) && FlushedSoFar(s, batch, folded, done) && b !in done && KeyOf(s, b).Some?
    ensures var k := KeyOf(s, b).value; var flushed :=
      FlushedSoFar(s, batch + [Put(k, CountV(Fold(StoredHours(s, k), Entries(folded, b))))], folded, done + {b}); flushed
  {
    var k := KeyOf(s, b).value;
    var v := CountV(Fold(StoredHours(s, k), Entries(folded, b)));
    KnownMore(s, done, b);
    WriteBucket(s, Run(s, batch), folded, done, b);
    OnceMore(s, batch, done, b, v);
    RunSnoc(s, batch, Put(k, v));
  }

  lemma FlushNothing(s: Data, batch: seq<Op>, folded: map<Bucket, seq<Delta<nat>>>, done: set<Bucket>, b: Bucket)
    requires FlushedSoFar(s, batch, folded, done) && b !in done && KeyOf(s, b).None?
    ensures var flushed := FlushedSoFar(s, batch, folded, done + {b}); flushed
  {
    KnownMore(s, done, b);
    SkipBucket(s, Run(s, batch), folded, done, b);
    OnceSkipped(s, batch, done, b);
  }

  /** One put per dirty bucket; a repository that is gone by now is skipped, not interned. */
  method PlanFlush(s: Data, folded: map<Bucket, seq<Delta<nat>>>) returns (batch: seq<Op>)
    requires Bijection(s)
    ensures WrittenFor(s, Run(s, batch), folded, folded.Keys) && EachKeyOnce(s, batch, folded.Keys)
    ensures |batch| == |Known(s, folded.Keys)|
  {
    batch := [];
    var left := folded.Keys;
    ghost var done: set<Bucket> := {};
    while left != {}
      invariant left <= folded.Keys && done == folded.Keys - left
      invariant var flushed := FlushedSoFar(s, batch, folded, done); flushed
      decreases left
    {
      var b :| b in left;
      var key := KeyOf(s, b);
      if key.Some? {
        FlushBucket(s, batch, folded, done, b);
        var hours := FoldEntries(StoredHours(s, key.value), folded[b]);
        batch := batch + [Put(key.value, CountV(hours))];
      } else {
        FlushNothing(s, batch, folded, done, b);
      }
      done, left := done + {b}, left - {b};
    }
    assert done == folded.Keys;
  }

  /** What a flush does to one bucket's hours. */
  ghost predicate HoursAdded(s: Data, s': Data, k: Key, ds: seq<Delta<Slot<Bucket>>>, b: Bucket) {
    forall hour, m :: 0 <= hour < 24 ==>
      Get(StoredHours(s', k)[hour], m) == Capped(Get(StoredHours(s, k)[hour], m) + Sum(ds, Slot(b, hour), m), m)
  }

  lemma BucketFlushed(s: Data, s': Data, folded: map<Bucket, seq<Delta<nat>>>, ds: seq<Delta<Slot<Bucket>>>, b: Bucket)
    requires Bijection(s) && WrittenFor(s, s', folded, folded.Keys) && Grouped(folded, ds) && KeyOf(s, b).Some?
    ensures HoursAdded(s, s', KeyOf(s, b).value, ds, b)
  {
    var k := KeyOf(s, b).value;
    assert b !in folded ==> SameKey(s, s', k) by {
      if !SameKey(s, s', k) { var a :| a in folded.Keys && KeyOf(s, a) == Some(k); KeysDiffer(s, a, b); }
    }
    forall hour, m | 0 <= hour < 24
      ensures Get(StoredHours(s', k)[hour], m) == Capped(Get(StoredHours(s, k)[hour], m) + Sum(ds, Slot(b, hour), m), m)
    {
      FoldIsCappedSum(StoredHours(s, k), Entries(folded, b), hour, m);
    }
  }

  /**
   Every bucket of a known repository gains exactly its own increments: it is stored if there were
   any, and a key none of them is for is left as it was.
   */
  ghost predicate Flushed(s: Data, s': Data, ds: seq<Delta<Slot<Bucket>>>) {
    && (forall b :: KeyOf(s, b).Some? ==> HoursAdded(s, s', KeyOf(s, b).value, ds, b))
    && (forall d :: d in ds && KeyOf(s, d.slot.bucket).Some? ==> CountedAt(s', KeyOf(s, d.slot.bucket).value))
    && (forall k: Key :: SameKey(s, s', k) || exists d :: d in ds && KeyOf(s, d.slot.bucket) == Some(k))
  }

  predicate CountedAt(s: Data, k: Key) { k in s && s[k].CountV? }

  lemma WrittenIsFlushed(s: Data, s': Data, folded: map<Bucket, seq<Delta<nat>>>, ds: seq<Delta<Slot<Bucket>>>)
    requires Bijection(s) && WrittenFor(s, s', folded, folded.Keys) && Grouped(folded, ds)
    requires folded.Keys == BucketsOf(ds)
    ensures Flushed(s, s', ds)
  {
    forall k: Key ensures SameKey(s, s', k) || exists d :: d in ds && KeyOf(s, d.slot.bucket) == Some(k) {
      if !SameKey(s, s', k) {
        var b :| b in folded.Keys && KeyOf(s, b) == Some(k);
        var d :| d in ds && d.slot.bucket == b;
      }
    }
    forall d | d in ds && KeyOf(s, d.slot.bucket).Some? ensures CountedAt(s', KeyOf(s, d.slot.bucket).value) {
      assert d.slot.bucket in folded.Keys;
    }
    forall b | KeyOf(s, b).Some? ensures HoursAdded(s, s', KeyOf(s, b).value, ds, b) { BucketFlushed(s, s', folded, ds, b); }
  }

  /** Fold a flush's increments into the store. */
  method AddPullCounts(engine: Engine, ds: seq<Delta<Slot<Bucket>>>) returns (written: nat)
    requires Bijection(engine.data)
    modifies engine
    ensures Flushed(old(engine.data), engine.data, ds) && written == |Known(old(engine.data), BucketsOf(ds))|
  {
    ghost var s := engine.data;
    var folded := GroupDeltas(ds);
    var batch := PlanFlush(engine.data, folded);
    written := |batch|;
    if written > 0 { engine.Apply(batch); }
    WrittenIsFlushed(s, engine.data, folded, ds);
  }

  // --- conservation -----------------------------------------------------

  lemma CappedTwice(x: nat, y: nat, m: Metric)
    ensures Capped(Capped(x, m) + y, m) == Capped(x + y, m)
  {}

  /** A bucket's stored hours are the capped sums of these increments. */
  ghost predicate Accounts(s: Data, k: Key, b: Bucket, flushed: seq<Delta<Slot<Bucket>>>) {
    forall hour, m :: 0 <= hour < 24 ==> Get(StoredHours(s, k)[hour], m) == Capped(Sum(flushed, Slot(b, hour), m), m)
  }

  lemma AccountsStart(s: Data, k: Key, b: Bucket)
    requires StoredHours(s, k) == Zeros()
    ensures Accounts(s, k, b, [])
  {}

  lemma AccountsMore(s: Data, s': Data, k: Key, b: Bucket, flushed: seq<Delta<Slot<Bucket>>>, out: seq<Delta<Slot<Bucket>>>, more: seq<Delta<Slot<Bucket>>>)
    requires Accounts(s, k, b, flushed) && HoursAdded(s, s', k, out, b)
    requires forall q, m :: Sum(out, q, m) == Sum(more, q, m)
    ensures Accounts(s', k, b, flushed + more)
  {
    forall hour, m | 0 <= hour < 24 ensures Get(StoredHours(s', k)[hour], m) == Capped(Sum(flushed + more, Slot(b, hour), m), m) {
      SumAppend(flushed, more, Slot(b, hour), m);
      CappedTwice(Sum(flushed, Slot(b, hour), m), Sum(more, Slot(b, hour), m), m);
    }
  }

  /** A flush writes counters only, so every name keeps its id. */
  lemma FlushKeepsNames(s: Data, s': Data, ds: seq<Delta<Slot<Bucket>>>, b: Bucket)
    requires Bijection(s) && Flushed(s, s', ds)
    ensures Bijection(s') && KeyOf(s', b) == KeyOf(s, b)
  {
    forall n: Name ensures SameKey(s, s', N(n)) {}
    forall id: RepoId ensures SameKey(s, s', I(id)) {}
  }

  /** The books for one bucket: its repository is known, and its stored hours account for what was flushed. */
  ghost predicate Books(s: Data, b: Bucket, k: Key, flushed: seq<Delta<Slot<Bucket>>>) {
    Bijection(s) && KeyOf(s, b) == Some(k) && Accounts(s, k, b, flushed)
  }

  ghost predicate SameSums<K(!new)>(a: seq<Delta<K>>, b: seq<Delta<K>>) { forall q, m :: Sum(a, q, m) == Sum(b, q, m) }

  /** The server's flush: drain what is waiting and fold it in. */
  method FlushCounters(engine: Engine, counters: Accumulator<Slot<Bucket>>, ghost b: Bucket, ghost k: Key, ghost flushed: seq<Delta<Slot<Bucket>>>)
    requires counters.Valid() && (var books := Books(engine.data, b, k, flushed); books)
    modifies engine, counters
    ensures counters.Valid() && counters.pending == [] && counters.refused == old(counters.refused)
    ensures var books := Books(engine.data, b, k, flushed + old(counters.pending)); books
    ensures exists out :: SameSums(out, old(counters.pending)) && Flushed(old(engine.data), engine.data, out)
  {
    ghost var s, waiting := engine.data, counters.pending;
    var out := counters.Drain();
    var _ := AddPullCounts(engine, out);
    FlushKeepsNames(s, engine.data, out, b);
    AccountsMore(s, engine.data, k, b, flushed, out, waiting);
    assert SameSums(out, waiting);
  }

  /** Pulls being recorded, flushes, and whatever else is written to the store meanwhile. */
  datatype Happening = Counted(increments: seq<Delta<Slot<Bucket>>>) | Flush | Aside(batch: seq<Op>)

  /** A batch under which the bucket's repository persists and its counter is left alone. */
  ghost predicate Unrelated(batch: seq<Op>, b: Bucket, k: Key) {
    forall s: Data :: Bijection(s) && KeyOf(s, b) == Some(k) ==>
      Bijection(Run(s, batch)) && KeyOf(Run(s, batch), b) == Some(k) && SameKey(s, Run(s, batch), k)
  }

  lemma BooksFrame(s: Data, s': Data, b: Bucket, k: Key, flushed: seq<Delta<Slot<Bucket>>>)
    requires Books(s, b, k, flushed) && Bijection(s') && KeyOf(s', b) == Some(k) && SameKey(s, s', k)
    ensures var books := Books(s', b, k, flushed); books
  {
    assert StoredHours(s', k) == StoredHours(s, k);
  }

  lemma UnrelatedAt(s: Data, batch: seq<Op>, b: Bucket, k: Key)
    requires Unrelated(batch, b, k) && Bijection(s) && KeyOf(s, b) == Some(k)
    ensures Bijection(Run(s, batch)) && KeyOf(Run(s, batch), b) == Some(k) && SameKey(s, Run(s, batch), k)
  {}

  ghost predicate AsidesUnrelated(hs: seq<Happening>, b: Bucket, k: Key) {
    forall i :: 0 <= i < |hs| && hs[i].Aside? ==> Unrelated(hs[i].batch, b, k)
  }

  lemma AsideKeepsBooks(s: Data, hs: seq<Happening>, i: nat, b: Bucket, k: Key, flushed: seq<Delta<Slot<Bucket>>>)
    requires i < |hs| && hs[i].Aside? && AsidesUnrelated(hs, b, k)
    requires var books := Books(s, b, k, flushed); books
    ensures var books := Books(Run(s, hs[i].batch), b, k, flushed); books
  {
    UnrelatedAt(s, hs[i].batch, b, k);
    BooksFrame(s, Run(s, hs[i].batch), b, k, flushed);
  }

  function AllCounted(hs: seq<Happening>): seq<Delta<Slot<Bucket>>> {
    if hs == [] then []
    else
      var last := hs[|hs| - 1];
      AllCounted(hs[..|hs| - 1]) + (if last.Counted? then last.increments else [])
  }

  lemma OneMoreHappening(hs: seq<Happening>, i: nat)
    requires i < |hs|
    ensures AllCounted(hs[..i + 1]) == AllCounted(hs[..i]) + (if hs[i].Counted? then hs[i].increments else [])
  {
    assert hs[..i + 1][..i] == hs[..i];
  }

  /** Every increment ever offered was flushed, is still waiting, or was tallied as dropped. */
  ghost predicate Conserved(hs: seq<Happening>, flushed: seq<Delta<Slot<Bucket>>>, pending: seq<Delta<Slot<Bucket>>>, refused: seq<Delta<Slot<Bucket>>>) {
    multiset(AllCounted(hs)) == multiset(flushed) + multiset(pending) + multiset(refused)
  }

  lemma ConservedByOffer(hs: seq<Happening>, i: nat, flushed: seq<Delta<Slot<Bucket>>>, p: seq<Delta<Slot<Bucket>>>, r: seq<Delta<Slot<Bucket>>>,
                         p': seq<Delta<Slot<Bucket>>>, r': seq<Delta<Slot<Bucket>>>)
    requires i < |hs| && hs[i].Counted? && Offered(p, r, p', r', hs[i].increments)
    requires var conserved := Conserved(hs[..i], flushed, p, r); conserved
    ensures var conserved := Conserved(hs[..i + 1], flushed, p', r'); conserved
  {
    OneMoreHappening(hs, i);
    assert p' == p + p'[|p|..] && r' == r + r'[|r|..];
  }

  lemma ConservedByFlush(hs: seq<Happening>, i: nat, flushed: seq<Delta<Slot<Bucket>>>, p: seq<Delta<Slot<Bucket>>>, r: seq<Delta<Slot<Bucket>>>)
    requires i < |hs| && !hs[i].Counted? && (var conserved := Conserved(hs[..i], flushed, p, r); conserved)
    ensures var conserved := Conserved(hs[..i + 1], flushed, p, r); conserved
    ensures var conserved := Conserved(hs[..i + 1], flushed + p, [], r); conserved
  {
    OneMoreHappening(hs, i);
    assert AllCounted(hs[..i + 1]) == AllCounted(hs[..i]);
  }

  /**
   Conservation, end to end: over any run of recorded pulls, flushes and other writes, for any
   bucket whose repository persists, each stored hour is the capped sum of exactly the increments
   flushed so far, and every increment offered was flushed, is waiting, or was tallied as dropped.
   */
  method RunCounters(engine: Engine, counters: Accumulator<Slot<Bucket>>, hs: seq<Happening>, ghost b: Bucket, ghost k: Key)
    returns (ghost flushed: seq<Delta<Slot<Bucket>>>)
    requires counters.Valid() && counters.pending == [] && counters.refused == []
    requires Bijection(engine.data) && KeyOf(engine.data, b) == Some(k) && StoredHours(engine.data, k) == Zeros()
    requires var aside := AsidesUnrelated(hs, b, k); aside
    modifies engine, counters
    ensures counters.Valid() && Conserved(hs, flushed, counters.pending, counters.refused)
    ensures var books := Books(engine.data, b, k, flushed); books
  {
    flushed := [];
    AccountsStart(engine.data, k, b);
    var i := 0;
    while i < |hs|
      invariant 0 <= i <= |hs| && counters.Valid()
      invariant var books := Books(engine.data, b, k, flushed); books
      invariant var conserved := Conserved(hs[..i], flushed, counters.pending, counters.refused); conserved
    {
      ghost var p, r := counters.pending, counters.refused;
      match hs[i] {
        case Counted(ds) =>
          Offer(counters, ds);
          ConservedByOffer(hs, i, flushed, p, r, counters.pending, counters.refused);
        case Flush =>
          FlushCounters(engine, counters, b, k, flushed);
          ConservedByFlush(hs, i, flushed, p, r);
          flushed := flushed + p;
        case Aside(batch) =>
          AsideKeepsBooks(engine.data, hs, i, b, k, flushed);
          engine.Apply(batch);
          ConservedByFlush(hs, i, flushed, p, r);
      }
      i := i + 1;
    }
    assert hs[..|hs|] == hs;
  }

  /** Neither the order of the increments nor how they were split into flushes shows in what is stored. */
  lemma GroupingIsInvisible(s1: Data, f1: seq<Delta<Slot<Bucket>>>, s2: Data, f2: seq<Delta<Slot<Bucket>>>, k: Key, b: Bucket, hour: nat, m: Metric)
    requires Accounts(s1, k, b, f1) && Accounts(s2, k, b, f2) && multiset(f1) == multiset(f2) && hour < 24
    ensures Get(StoredHours(s1, k)[hour], m) == Get(StoredHours(s2, k)[hour], m)
  {
    SumIsOrderless(f1, f2, Slot(b, hour), m);
  }
}
