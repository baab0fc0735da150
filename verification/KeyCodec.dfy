/** Byte order against logical order, and the suffix decoders against the encoders. */
module KeyCodec {
  import opened Bytes
  import opened Results
  import opened Keys

  // --- order ------------------------------------------------------------

  /** The derived order on digests: sha256 first, then raw bytes. */
  predicate DigestLess(a: Digest, b: Digest) {
    if a.Sha256? == b.Sha256? then Less(a.raw, b.raw) else a.Sha256?
  }

  lemma FixedOrder(x: bytes, y: bytes, s: bytes, t: bytes)
    requires |x| == |y|
    ensures Less(x + s, y + t) <==> Less(x, y) || (x == y && Less(s, t))
  {
    if x == y {
      LessPrefix(x, s, t);
      LessIrreflexive(x);
    } else {
      LessHead(x, y, s, t);
    }
  }

  lemma RepoOrder(a: RepoId, b: RepoId, s: bytes, t: bytes)
    ensures Less(RepoBytes(a) + s, RepoBytes(b) + t) <==> a < b || (a == b && Less(s, t))
  {
    Widths();
    BigEndianOrder(a, b, 4);
    FixedOrder(RepoBytes(a), RepoBytes(b), s, t);
  }

  /** Later instants sort earlier. */
  lemma TimeOrder(a: Millis, b: Millis, s: bytes, t: bytes)
    ensures Less(TimeBytes(a) + s, TimeBytes(b) + t) <==> a > b || (a == b && Less(s, t))
  {
    Widths();
    BigEndianOrder(0xFFFF_FFFF_FFFF_FFFF - a, 0xFFFF_FFFF_FFFF_FFFF - b, 8);
    FixedOrder(TimeBytes(a), TimeBytes(b), s, t);
  }

  lemma ShortOrder(a: Short, b: Short, s: bytes, t: bytes)
    ensures Less(ShortBytes(a) + s, ShortBytes(b) + t) <==> a < b || (a == b && Less(s, t))
  {
    Widths();
    BigEndianOrder(a, b, 2);
    FixedOrder(ShortBytes(a), ShortBytes(b), s, t);
  }

  lemma DigestOrder(a: Digest, b: Digest, s: bytes, t: bytes)
    ensures Less(DigestBytes(a) + s, DigestBytes(b) + t) <==> DigestLess(a, b) || (a == b && Less(s, t))
  {
    if a.Sha256? == b.Sha256? {
      FixedOrder(DigestBytes(a), DigestBytes(b), s, t);
      LessPrefix([AlgorithmByte(a)], a.raw, b.raw);
      assert DigestBytes(a)[1..] == a.raw && DigestBytes(b)[1..] == b.raw;
    } else {
      assert (DigestBytes(a) + s)[0] == AlgorithmByte(a) && (DigestBytes(b) + t)[0] == AlgorithmByte(b);
    }
  }

  /** NUL sorts below every tag byte, so a terminated tag keeps tag order. */
  lemma {:induction false} TagOrder(a: Tag, b: Tag, s: bytes, t: bytes)
    ensures Less(a + ([0] + s), b + ([0] + t)) <==> Less(a, b) || (a == b && Less(s, t))
    decreases |a|
  {
    var x, y := a + ([0] + s), b + ([0] + t);
    assert x[0] == (if a == [] then 0 else a[0]) && y[0] == (if b == [] then 0 else b[0]);
    if a == [] && b == [] {
      assert x[1..] == s && y[1..] == t;
    } else if a != [] && b != [] && a[0] == b[0] {
      var a1: Tag, b1: Tag := a[1..], b[1..];
      assert x[1..] == a1 + ([0] + s) && y[1..] == b1 + ([0] + t);
      TagOrder(a1, b1, s, t);
      assert a == [a[0]] + a1 && b == [b[0]] + b1;
    }
  }

  lemma SameLetter(a: Key, b: Key)
    requires Letter(a) == Letter(b)
    ensures Less(Encode(a), Encode(b)) <==> Less(Body(a), Body(b))
  {
    LessPrefix([Letter(a)], Body(a), Body(b));
  }

  /** Manifests, bodies and memberships come back by repository, then by digest. */
  lemma RepoDigestOrder(a: Key, b: Key)
    requires (a.M? && b.M?) || (a.Z? && b.Z?) || (a.P? && b.P?)
    ensures Less(Encode(a), Encode(b)) <==> a.repo < b.repo || (a.repo == b.repo && DigestLess(a.digest, b.digest))
  {
    SameLetter(a, b);
    RepoOrder(a.repo, b.repo, DigestBytes(a.digest), DigestBytes(b.digest));
    DigestAlone(a.digest, b.digest);
  }

  lemma DigestAlone(a: Digest, b: Digest)
    ensures Less(DigestBytes(a), DigestBytes(b)) <==> DigestLess(a, b)
  {
    assert DigestBytes(a) + [] == DigestBytes(a) && DigestBytes(b) + [] == DigestBytes(b);
    DigestOrder(a, b, [], []);
  }

  /** Tags come back by name within a repository. */
  lemma TagListOrder(a: Key, b: Key)
    requires a.T? && b.T?
    ensures Less(Encode(a), Encode(b)) <==> a.repo < b.repo || (a.repo == b.repo && Less(a.tag, b.tag))
  {
    SameLetter(a, b);
    RepoOrder(a.repo, b.repo, a.tag, b.tag);
  }

  /** One tag's history arrives newest first, ties broken by digest. */
  lemma HistoryOrder(a: Key, b: Key)
    requires a.H? && b.H? && a.repo == b.repo && a.tag == b.tag
    ensures Less(Encode(a), Encode(b)) <==> a.at > b.at || (a.at == b.at && DigestLess(a.digest, b.digest))
  {
    SameLetter(a, b);
    var x, y := TimeBytes(a.at) + DigestBytes(a.digest), TimeBytes(b.at) + DigestBytes(b.digest);
    RepoOrder(a.repo, b.repo, a.tag + ([0] + x), b.tag + ([0] + y));
    TagOrder(a.tag, b.tag, x, y);
    LessIrreflexive(a.tag);
    TimeOrder(a.at, b.at, DigestBytes(a.digest), DigestBytes(b.digest));
    DigestAlone(a.digest, b.digest);
  }

  /** One manifest's history arrives newest first, ties broken by tag. */
  lemma ManifestHistoryOrder(a: Key, b: Key)
    requires a.J? && b.J? && a.repo == b.repo && a.digest == b.digest
    ensures Less(Encode(a), Encode(b)) <==> a.at > b.at || (a.at == b.at && Less(a.tag, b.tag))
  {
    SameLetter(a, b);
    var x, y := TimeBytes(a.at) + a.tag, TimeBytes(b.at) + b.tag;
    RepoOrder(a.repo, b.repo, DigestBytes(a.digest) + x, DigestBytes(b.digest) + y);
    DigestOrder(a.digest, b.digest, x, y);
    LessIrreflexive(a.digest.raw);
    TimeOrder(a.at, b.at, a.tag, b.tag);
  }

  predicate CounterKey(k: Key) { k.CountManifest? || k.CountTag? || k.CountRepo? }

  /** The scan prefix of one subject's counters. */
  function GroupOf(k: Key): Range
    requires CounterKey(k)
  {
    match k
    case CountManifest(r, d, _, _) => CountersOfManifest(r, d)
    case CountTag(r, t, _, _) => CountersOfTag(r, t)
    case CountRepo(r, _, _) => CountersIn(RepoScope, r)
  }

  lemma Associate(a: bytes, b: bytes, c: bytes)
    ensures a + (b + c) == (a + b) + c
  {}

  lemma CounterShape(k: Key)
    requires CounterKey(k)
    ensures Encode(k) == EncodeRange(GroupOf(k)) + (ShortBytes(k.day) + ShortBytes(k.shard))
  {
    var x := ShortBytes(k.day) + ShortBytes(k.shard);
    CounterBody(k);
    assert Letter(k) == 65 == RangeLetter(GroupOf(k));
    Associate([65], RangeBody(GroupOf(k)), x);
  }

  lemma CounterBody(k: Key)
    requires CounterKey(k)
    ensures Body(k) == RangeBody(GroupOf(k)) + (ShortBytes(k.day) + ShortBytes(k.shard))
  {
    var x := ShortBytes(k.day) + ShortBytes(k.shard);
    match k {
      case CountManifest(r, d, _, _) =>
        Associate(RepoBytes(r), DigestBytes(d), x);
        Associate([109], RepoBytes(r) + DigestBytes(d), x);
      case CountTag(r, t, _, _) =>
        Associate(t, [0], x);
        Associate(RepoBytes(r), t + [0], x);
        Associate([116], RepoBytes(r) + (t + [0]), x);
      case CountRepo(r, _, _) => Associate([114], RepoBytes(r), x);
    }
  }

  /** One subject's counters arrive by day, then shard. */
  lemma CounterOrder(a: Key, b: Key)
    requires CounterKey(a) && CounterKey(b) && GroupOf(a) == GroupOf(b)
    ensures Less(Encode(a), Encode(b)) <==> a.day < b.day || (a.day == b.day && a.shard < b.shard)
  {
    CounterShape(a);
    CounterShape(b);
    LessPrefix(EncodeRange(GroupOf(a)), ShortBytes(a.day) + ShortBytes(a.shard), ShortBytes(b.day) + ShortBytes(b.shard));
    ShortOrder(a.day, b.day, ShortBytes(a.shard), ShortBytes(b.shard));
    assert ShortBytes(a.shard) + [] == ShortBytes(a.shard) && ShortBytes(b.shard) + [] == ShortBytes(b.shard);
    ShortOrder(a.shard, b.shard, [], []);
  }

  // --- the before cursor ------------------------------------------------

  function OneBefore(at: Millis): Millis { if at == 0 then 0 else at - 1 }

  /** Seek key for "events strictly before this instant" of one tag. */
  function HistoryBefore(repo: RepoId, tag: Tag, at: Millis): bytes {
    EncodeRange(HistoryOf(repo, tag)) + TimeBytes(OneBefore(at))
  }

  function ManifestHistoryBefore(repo: RepoId, digest: Digest, at: Millis): bytes {
    EncodeRange(ManifestHistoryOf(repo, digest)) + TimeBytes(OneBefore(at))
  }

  /**
   Which events a scan resumed after the cursor returns. For instants of at least a millisecond
   that is strictly-earlier; at the epoch itself the cursor cannot back up, and an event stamped
   at the epoch is returned although nothing is earlier.
   */
  lemma BeforeSplitsHistory(k: Key, at: Millis)
    requires k.H?
    ensures Less(HistoryBefore(k.repo, k.tag, at), Encode(k)) <==> k.at <= OneBefore(at)
    ensures (Less(HistoryBefore(k.repo, k.tag, at), Encode(k)) <==> k.at < at) <==> at >= 1 || k.at > 0
  {
    var p := EncodeRange(HistoryOf(k.repo, k.tag));
    var x := TimeBytes(k.at) + DigestBytes(k.digest);
    Associate(k.tag, [0], x);
    Associate(RepoBytes(k.repo), k.tag + [0], x);
    Associate([72], RepoBytes(k.repo) + (k.tag + [0]), x);
    assert Encode(k) == p + x;
    LessPrefix(p, TimeBytes(OneBefore(at)), x);
    assert TimeBytes(OneBefore(at)) + [] == TimeBytes(OneBefore(at));
    TimeOrder(OneBefore(at), k.at, [], DigestBytes(k.digest));
  }

  lemma BeforeSplitsManifestHistory(k: Key, at: Millis)
    requires k.J? && k.tag != []
    ensures Less(ManifestHistoryBefore(k.repo, k.digest, at), Encode(k)) <==> k.at <= OneBefore(at)
    ensures (Less(ManifestHistoryBefore(k.repo, k.digest, at), Encode(k)) <==> k.at < at) <==> at >= 1 || k.at > 0
  {
    var p := EncodeRange(ManifestHistoryOf(k.repo, k.digest));
    var x := TimeBytes(k.at) + k.tag;
    Associate(RepoBytes(k.repo), DigestBytes(k.digest), x);
    Associate([74], RepoBytes(k.repo) + DigestBytes(k.digest), x);
    assert Encode(k) == p + x;
    LessPrefix(p, TimeBytes(OneBefore(at)), x);
    assert TimeBytes(OneBefore(at)) + [] == TimeBytes(OneBefore(at));
    TimeOrder(OneBefore(at), k.at, [], k.tag);
  }

  /** Where a day-windowed scan starts. */
  function FromDay(g: Range, day: Short): bytes { EncodeRange(g) + ShortBytes(day) }

  /** `<prefix> <day>` resumes at the day itself: it precedes every key of that day and later. */
  lemma FromDayIncludesDay(k: Key, day: Short)
    requires CounterKey(k)
    ensures Less(FromDay(GroupOf(k), day), Encode(k)) <==> day <= k.day
  {
    CounterShape(k);
    LessPrefix(EncodeRange(GroupOf(k)), ShortBytes(day), ShortBytes(k.day) + ShortBytes(k.shard));
    assert ShortBytes(day) + [] == ShortBytes(day);
    ShortOrder(day, k.day, [], ShortBytes(k.shard));
  }

  // --- decoders ---------------------------------------------------------

  function DigestAfterRepo(key: bytes): Option<Digest> {
    if |key| < 5 then None
    else match DecodeDigest(key[5..]) case Some((d, _)) => Some(d) case None => None
  }

  function SecondDigestAfterRepo(key: bytes): Option<Digest> {
    if |key| < 5 then None
    else match DecodeDigest(key[5..])
      case None => None
      case Some((_, used)) =>
        if |key| < 5 + used then None
        else match DecodeDigest(key[5 + used..]) case Some((d, _)) => Some(d) case None => None
  }

  function BlobRefTarget(key: bytes): Option<(nat, Digest)> {
    if key == [] then None
    else match DecodeDigest(key[1..])
      case None => None
      case Some((_, used)) =>
        if |key| < 1 + used + 4 then None
        else match DecodeDigest(key[1 + used + 4..])
          case None => None
          case Some((m, _)) => Some((FromBigEndian(key[1 + used..1 + used + 4]), m))
  }

  function ReadTime(b: bytes): Option<Millis>
  {
    if |b| < 8 then None
    else
      FromBigEndianBound(b[..8]);
      Some(0xFFFF_FFFF_FFFF_FFFF - FromBigEndian(b[..8]))
  }

  lemma {:induction false} FromBigEndianIsBounded(b: bytes)
    ensures FromBigEndian(b) < Pow256(|b|)
  {
    if b != [] { FromBigEndianIsBounded(b[..|b| - 1]); }
  }

  lemma FromBigEndianBound(b: bytes)
    requires |b| == 8
    ensures FromBigEndian(b) <= 0xFFFF_FFFF_FFFF_FFFF
  {
    Widths();
    FromBigEndianIsBounded(b);
  }

  function StripPrefix(key: bytes, prefix: bytes): Option<bytes> {
    if StartsWith(key, prefix) then Some(key[|prefix|..]) else None
  }

  function TagHistorySuffix(key: bytes, prefix: bytes): Option<(Millis, Digest)> {
    match StripPrefix(key, prefix)
    case None => None
    case Some(rest) =>
      match ReadTime(rest)
      case None => None
      case Some(at) => match DecodeDigest(rest[8..]) case Some((d, _)) => Some((at, d)) case None => None
  }

  function ManifestTagHistorySuffix(key: bytes, prefix: bytes): Option<(Millis, bytes)> {
    match StripPrefix(key, prefix)
    case None => None
    case Some(rest) => match ReadTime(rest) case None => None case Some(at) => if Utf8(rest[8..]) then Some((at, rest[8..])) else None
  }

  function CounterSuffix(key: bytes, prefix: bytes): Option<(nat, nat)> {
    match StripPrefix(key, prefix)
    case None => None
    case Some(rest) => if |rest| != 4 then None else Some((FromBigEndian(rest[..2]), FromBigEndian(rest[2..])))
  }

  function Text(b: bytes): Option<bytes> { if Utf8(b) then Some(b) else None }

  function TagSuffix(key: bytes): Option<bytes> {
    if key == [] || key[0] != 84 || |key| < 5 then None else Text(key[5..])
  }

  function ManifestTagSuffix(key: bytes, d: Digest): Option<bytes> {
    var offset := 5 + |DigestBytes(d)|;
    if |key| < offset then None else Text(key[offset..])
  }

  function RepoNameIn(key: bytes): Option<bytes> {
    if key == [] || key[0] != 110 then None else Text(key[1..])
  }

  function DeadRepoIn(key: bytes): Option<nat> {
    if key == [] || key[0] != 68 || |key| != 5 then None else Some(FromBigEndian(key[1..]))
  }

  lemma DecodesDigest(d: Digest, rest: bytes)
    ensures DecodeDigest(DigestBytes(d) + rest) == Some((d, |DigestBytes(d)|))
  {
    var buf := DigestBytes(d) + rest;
    assert buf[0] == AlgorithmByte(d) && buf[1..|DigestBytes(d)|] == d.raw;
  }

  lemma EncodedLengthAgrees(d: Digest)
    ensures EncodedLength(DigestBytes(d)[0]) == Some(|DigestBytes(d)|)
  {}

  /** The digest after the repository, both sizes. */
  lemma DigestSuffixInverts(k: Key)
    requires k.M? || k.Z? || k.P? || k.G?
    ensures DigestAfterRepo(Encode(k)) == Some(k.digest)
  {
    var tail: bytes := if k.G? then k.tag else [];
    assert Encode(k)[5..] == DigestBytes(k.digest) + tail;
    DecodesDigest(k.digest, tail);
  }

  /** Both ends of an edge; a 64-byte first component does not shift the second. */
  lemma EdgeSuffixesInvert(k: Key)
    requires k.F? || k.S?
    ensures DigestAfterRepo(Encode(k)) == Some(if k.F? then k.subject else k.child)
    ensures SecondDigestAfterRepo(Encode(k)) == Some(if k.F? then k.referrer else k.parent)
  {
    var x, y := if k.F? then k.subject else k.child, if k.F? then k.referrer else k.parent;
    var e := Encode(k);
    assert e[5..] == DigestBytes(x) + DigestBytes(y);
    DecodesDigest(x, DigestBytes(y));
    assert e[5 + |DigestBytes(x)|..] == DigestBytes(y) + [];
    DecodesDigest(y, []);
  }

  lemma Slices(w: bytes, x: bytes, y: bytes, z: bytes)
    ensures var e := w + (x + (y + z));
      && e[|w|..] == x + (y + z)
      && e[|w| + |x|..|w| + |x| + |y|] == y
      && e[|w| + |x| + |y|..] == z
  {}

  lemma RefTargetInverts(b: Digest, r: RepoId, m: Digest)
    ensures BlobRefTarget(Encode(R(b, r, m))) == Some((r, m))
  {
    Slices([82], DigestBytes(b), RepoBytes(r), DigestBytes(m));
    DecodesDigest(b, RepoBytes(r) + DigestBytes(m));
    assert DigestBytes(m) + [] == DigestBytes(m);
    DecodesDigest(m, []);
    Widths();
    BigEndianRoundTrip(r, 4);
  }

  /** The repository id out of a membership key or a dead-repository key. */
  lemma RepoInverts(k: Key)
    requires k.P? || k.Dead?
    ensures FromBigEndian(Encode(k)[1..5]) == k.repo
  {
    assert Encode(k)[1..5] == RepoBytes(k.repo);
    Widths();
    BigEndianRoundTrip(k.repo, 4);
  }

  lemma ReadsTime(at: Millis, rest: bytes)
    ensures ReadTime(TimeBytes(at) + rest) == Some(at)
  {
    Widths();
    assert (TimeBytes(at) + rest)[..8] == TimeBytes(at);
    BigEndianRoundTrip(0xFFFF_FFFF_FFFF_FFFF - at, 8);
  }

  lemma Strips(key: bytes, prefix: bytes, rest: bytes)
    requires key == prefix + rest
    ensures StripPrefix(key, prefix) == Some(rest)
  {
    assert key[..|prefix|] == prefix && key[|prefix|..] == rest;
  }

  /** A history row decodes to the instant and digest it was written with. */
  lemma HistorySuffixInverts(k: Key)
    requires k.H?
    ensures TagHistorySuffix(Encode(k), EncodeRange(HistoryOf(k.repo, k.tag))) == Some((k.at, k.digest))
  {
    var x := TimeBytes(k.at) + DigestBytes(k.digest);
    Strips(Encode(k), EncodeRange(HistoryOf(k.repo, k.tag)), x);
    ReadsTime(k.at, DigestBytes(k.digest));
    assert x[8..] == DigestBytes(k.digest) + [];
    DecodesDigest(k.digest, []);
  }

  lemma Regroup(c: bytes, x: bytes, y: bytes, z: bytes)
    ensures c + (x + (y + z)) == (c + (x + y)) + z
  {}

  lemma ManifestHistorySuffixInverts(k: Key)
    requires k.J?
    ensures ManifestTagHistorySuffix(Encode(k), EncodeRange(ManifestHistoryOf(k.repo, k.digest))) == if Utf8(k.tag) then Some((k.at, k.tag)) else None
  {
    Regroup([74], RepoBytes(k.repo), DigestBytes(k.digest), TimeBytes(k.at) + k.tag);
    Strips(Encode(k), EncodeRange(ManifestHistoryOf(k.repo, k.digest)), TimeBytes(k.at) + k.tag);
    ReadsTime(k.at, k.tag);
    assert (TimeBytes(k.at) + k.tag)[8..] == k.tag;
  }

  lemma CounterSuffixInverts(k: Key)
    requires CounterKey(k)
    ensures CounterSuffix(Encode(k), EncodeRange(GroupOf(k))) == Some((k.day, k.shard))
  {
    CounterShape(k);
    var x := ShortBytes(k.day) + ShortBytes(k.shard);
    Strips(Encode(k), EncodeRange(GroupOf(k)), x);
    assert x[..2] == ShortBytes(k.day) && x[2..] == ShortBytes(k.shard);
    Widths();
    BigEndianRoundTrip(k.day, 2);
    BigEndianRoundTrip(k.shard, 2);
  }

  /** Over every stored key, the tag decoder answers for `T` keys only, with their tag. */
  lemma TagSuffixInverts(k: Key)
    ensures TagSuffix(Encode(k)) == if k.T? && Utf8(k.tag) then Some(k.tag) else None
  {
    if k.T? { Strips(Encode(k), [84] + RepoBytes(k.repo), k.tag); assert Encode(k)[5..] == k.tag; }
  }

  lemma ManifestTagSuffixInverts(k: Key)
    requires k.G?
    ensures ManifestTagSuffix(Encode(k), k.digest) == if Utf8(k.tag) then Some(k.tag) else None
  {
    assert Encode(k) == ([71] + RepoBytes(k.repo) + DigestBytes(k.digest)) + k.tag;
    assert Encode(k)[5 + |DigestBytes(k.digest)|..] == k.tag;
  }

  /** Likewise repository names and outstanding sweeps. */
  lemma RepoNameInverts(k: Key)
    ensures RepoNameIn(Encode(k)) == if k.N? && Utf8(k.name) then Some(k.name) else None
  {
    if k.N? { assert Encode(k)[1..] == k.name; }
  }

  lemma DeadRepoInverts(k: Key)
    ensures DeadRepoIn(Encode(k)) == if k.Dead? then Some(k.repo) else None
  {
    if k.Dead? {
      assert Encode(k)[1..] == RepoBytes(k.repo);
      Widths();
      BigEndianRoundTrip(k.repo, 4);
    }
  }
}
