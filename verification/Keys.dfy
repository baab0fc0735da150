/**
 The key schema: one leading type byte, then fixed-width and self-delimiting components, so that
 a byte-ordered store answers every query by prefix.
 */
module Keys {
  import opened Bytes
  import opened Results

  type RepoId = n: nat | n < 0x1_0000_0000
  type Millis = n: nat | n < 0x1_0000_0000_0000_0000
  type Short = n: nat | n < 0x1_0000

  const RESERVED_ID: RepoId := 0xFFFF_FFFF

  datatype RawDigest = Sha256(raw: bytes) | Sha512(raw: bytes)

  function RawLength(d: RawDigest): nat { if d.Sha256? then 32 else 64 }

  type Digest = d: RawDigest | |d.raw| == RawLength(d) witness Sha256(seq(32, i => 0))

  /** The tag grammar has no NUL, which is what lets NUL end a tag inside a key. */
  type Tag = t: bytes | 0 !in t witness []

  type Name = bytes
  type UploadId = u: bytes | |u| == 16 witness seq(16, i => 0)

  datatype Scope = ManifestScope | TagScope | RepoScope

  /** Every key the registry writes, by logical content. */
  datatype Key =
    | M(repo: RepoId, digest: Digest)
    | Z(repo: RepoId, digest: Digest)
    | T(repo: RepoId, tag: Tag)
    | G(repo: RepoId, digest: Digest, tag: Tag)
    | B(digest: Digest)
    | C(digest: Digest)
    | R(blob: Digest, repo: RepoId, manifest: Digest)
    | P(repo: RepoId, digest: Digest)
    | S(repo: RepoId, child: Digest, parent: Digest)
    | F(repo: RepoId, subject: Digest, referrer: Digest)
    | U(upload: UploadId)
    | H(repo: RepoId, tag: Tag, at: Millis, digest: Digest)
    | J(repo: RepoId, digest: Digest, at: Millis, tag: Tag)
    | CountManifest(repo: RepoId, digest: Digest, day: Short, shard: Short)
    | CountTag(repo: RepoId, tag: Tag, day: Short, shard: Short)
    | CountRepo(repo: RepoId, day: Short, shard: Short)
    | Dead(repo: RepoId)
    | N(name: Name)
    | I(repo: RepoId)
    | Version

  /** Every prefix the registry scans, probes or drops. */
  datatype Range =
    | ManifestsIn(repo: RepoId) | BodiesIn(repo: RepoId)
    | TagsIn(repo: RepoId) | ManifestTagsIn(repo: RepoId) | TagsOf(repo: RepoId, digest: Digest)
    | Blobs | Marks
    | RefsOf(blob: Digest) | RefsIn(blob: Digest, repo: RepoId)
    | Members | MembersIn(repo: RepoId)
    | ParentsOf(repo: RepoId, child: Digest) | ChildrenIn(repo: RepoId)
    | ReferrersOf(repo: RepoId, subject: Digest) | ReferrersIn(repo: RepoId)
    | Uploads
    | HistoryOf(repo: RepoId, tag: Tag) | HistoryIn(repo: RepoId)
    | ManifestHistoryOf(repo: RepoId, digest: Digest) | ManifestHistoryIn(repo: RepoId)
    | CountersOfManifest(repo: RepoId, digest: Digest) | CountersOfTag(repo: RepoId, tag: Tag)
    | CountersIn(scope: Scope, repo: RepoId)
    | DeadRepos | NamesFrom(start: Name)
    | ManifestAt(repo: RepoId, digest: Digest) | MemberAt(repo: RepoId, digest: Digest)

  // --- components -------------------------------------------------------

  function RepoBytes(r: RepoId): bytes { BigEndian(r, 4) }

  /** Complemented, so that the newest instant sorts first. */
  function TimeBytes(at: Millis): bytes { BigEndian(0xFFFF_FFFF_FFFF_FFFF - at, 8) }

  function ShortBytes(n: Short): bytes { BigEndian(n, 2) }

  function ScopeByte(s: Scope): byte {
    match s case ManifestScope => 109 case TagScope => 116 case RepoScope => 114
  }

  function AlgorithmByte(d: Digest): byte { if d.Sha256? then 1 else 2 }

  function DigestBytes(d: Digest): bytes { [AlgorithmByte(d)] + d.raw }

  /** A digest off the head of a buffer, with the bytes it took. */
  function DecodeDigest(buf: bytes): Option<(Digest, nat)> {
    if buf == [] then None
    else if buf[0] == 1 && |buf| >= 33 then Some((Sha256(buf[1..33]), 33))
    else if buf[0] == 2 && |buf| >= 65 then Some((Sha512(buf[1..65]), 65))
    else None
  }

  /** The length an algorithm byte promises, without the digest behind it. */
  function EncodedLength(algorithm: byte): Option<nat> {
    if algorithm == 1 then Some(33) else if algorithm == 2 then Some(65) else None
  }

  function Letter(k: Key): byte {
    match k
    case M(_, _) => 77 case Z(_, _) => 90 case T(_, _) => 84 case G(_, _, _) => 71
    case B(_) => 66 case C(_) => 67 case R(_, _, _) => 82 case P(_, _) => 80
    case S(_, _, _) => 83 case F(_, _, _) => 70 case U(_) => 85
    case H(_, _, _, _) => 72 case J(_, _, _, _) => 74
    case CountManifest(_, _, _, _) => 65 case CountTag(_, _, _, _) => 65 case CountRepo(_, _, _) => 65
    case Dead(_) => 68 case N(_) => 110 case I(_) => 105 case Version => 118
  }

  function Body(k: Key): bytes {
    match k
    case M(r, d) => RepoBytes(r) + DigestBytes(d)
    case Z(r, d) => RepoBytes(r) + DigestBytes(d)
    case T(r, t) => RepoBytes(r) + t
    case G(r, d, t) => RepoBytes(r) + (DigestBytes(d) + t)
    case B(d) => DigestBytes(d)
    case C(d) => DigestBytes(d)
    case R(b, r, m) => DigestBytes(b) + (RepoBytes(r) + DigestBytes(m))
    case P(r, d) => RepoBytes(r) + DigestBytes(d)
    case S(r, c, p) => RepoBytes(r) + (DigestBytes(c) + DigestBytes(p))
    case F(r, s, f) => RepoBytes(r) + (DigestBytes(s) + DigestBytes(f))
    case U(u) => u
    case H(r, t, at, d) => RepoBytes(r) + (t + ([0] + (TimeBytes(at) + DigestBytes(d))))
    case J(r, d, at, t) => RepoBytes(r) + (DigestBytes(d) + (TimeBytes(at) + t))
    case CountManifest(r, d, day, sh) => [109] + (RepoBytes(r) + (DigestBytes(d) + (ShortBytes(day) + ShortBytes(sh))))
    case CountTag(r, t, day, sh) => [116] + (RepoBytes(r) + (t + ([0] + (ShortBytes(day) + ShortBytes(sh)))))
    case CountRepo(r, day, sh) => [114] + (RepoBytes(r) + (ShortBytes(day) + ShortBytes(sh)))
    case Dead(r) => RepoBytes(r)
    case N(n) => n
    case I(r) => RepoBytes(r)
    case Version => []
  }

  function Encode(k: Key): (b: bytes)
    ensures b != []
  {
    [Letter(k)] + Body(k)
  }

  function RangeLetter(g: Range): byte {
    match g
    case ManifestsIn(_) => 77 case BodiesIn(_) => 90 case TagsIn(_) => 84
    case ManifestTagsIn(_) => 71 case TagsOf(_, _) => 71 case Blobs => 66 case Marks => 67
    case RefsOf(_) => 82 case RefsIn(_, _) => 82 case Members => 80 case MembersIn(_) => 80
    case ParentsOf(_, _) => 83 case ChildrenIn(_) => 83 case ReferrersOf(_, _) => 70 case ReferrersIn(_) => 70
    case Uploads => 85 case HistoryOf(_, _) => 72 case HistoryIn(_) => 72
    case ManifestHistoryOf(_, _) => 74 case ManifestHistoryIn(_) => 74
    case CountersOfManifest(_, _) => 65 case CountersOfTag(_, _) => 65 case CountersIn(_, _) => 65
    case DeadRepos => 68 case NamesFrom(_) => 110
    case ManifestAt(_, _) => 77 case MemberAt(_, _) => 80
  }

  function RangeBody(g: Range): bytes {
    match g
    case ManifestsIn(r) => RepoBytes(r)
    case BodiesIn(r) => RepoBytes(r)
    case TagsIn(r) => RepoBytes(r)
    case ManifestTagsIn(r) => RepoBytes(r)
    case TagsOf(r, d) => RepoBytes(r) + DigestBytes(d)
    case Blobs => []
    case Marks => []
    case RefsOf(b) => DigestBytes(b)
    case RefsIn(b, r) => DigestBytes(b) + RepoBytes(r)
    case Members => []
    case MembersIn(r) => RepoBytes(r)
    case ParentsOf(r, c) => RepoBytes(r) + DigestBytes(c)
    case ChildrenIn(r) => RepoBytes(r)
    case ReferrersOf(r, s) => RepoBytes(r) + DigestBytes(s)
    case ReferrersIn(r) => RepoBytes(r)
    case Uploads => []
    case HistoryOf(r, t) => RepoBytes(r) + (t + [0])
    case HistoryIn(r) => RepoBytes(r)
    case ManifestHistoryOf(r, d) => RepoBytes(r) + DigestBytes(d)
    case ManifestHistoryIn(r) => RepoBytes(r)
    case CountersOfManifest(r, d) => [109] + (RepoBytes(r) + DigestBytes(d))
    case CountersOfTag(r, t) => [116] + (RepoBytes(r) + (t + [0]))
    case CountersIn(s, r) => [ScopeByte(s)] + RepoBytes(r)
    case DeadRepos => []
    case NamesFrom(n) => n
    case ManifestAt(r, d) => RepoBytes(r) + DigestBytes(d)
    case MemberAt(r, d) => RepoBytes(r) + DigestBytes(d)
  }

  function EncodeRange(g: Range): bytes { [RangeLetter(g)] + RangeBody(g) }

  /** The logical keys each prefix is meant to cover. */
  predicate InRange(k: Key, g: Range) {
    match g
    case ManifestsIn(r) => k.M? && k.repo == r
    case BodiesIn(r) => k.Z? && k.repo == r
    case TagsIn(r) => k.T? && k.repo == r
    case ManifestTagsIn(r) => k.G? && k.repo == r
    case TagsOf(r, d) => k.G? && k.repo == r && k.digest == d
    case Blobs => k.B?
    case Marks => k.C?
    case RefsOf(b) => k.R? && k.blob == b
    case RefsIn(b, r) => k.R? && k.blob == b && k.repo == r
    case Members => k.P?
    case MembersIn(r) => k.P? && k.repo == r
    case ParentsOf(r, c) => k.S? && k.repo == r && k.child == c
    case ChildrenIn(r) => k.S? && k.repo == r
    case ReferrersOf(r, s) => k.F? && k.repo == r && k.subject == s
    case ReferrersIn(r) => k.F? && k.repo == r
    case Uploads => k.U?
    case HistoryOf(r, t) => k.H? && k.repo == r && k.tag == t
    case HistoryIn(r) => k.H? && k.repo == r
    case ManifestHistoryOf(r, d) => k.J? && k.repo == r && k.digest == d
    case ManifestHistoryIn(r) => k.J? && k.repo == r
    case CountersOfManifest(r, d) => k.CountManifest? && k.repo == r && k.digest == d
    case CountersOfTag(r, t) => k.CountTag? && k.repo == r && k.tag == t
    case CountersIn(ManifestScope, r) => k.CountManifest? && k.repo == r
    case CountersIn(TagScope, r) => k.CountTag? && k.repo == r
    case CountersIn(RepoScope, r) => k.CountRepo? && k.repo == r
    case DeadRepos => k.Dead?
    case NamesFrom(n) => k.N? && StartsWith(k.name, n)
    case ManifestAt(r, d) => k == M(r, d)
    case MemberAt(r, d) => k == P(r, d)
  }

  // --- component laws ---------------------------------------------------

  /** Components of one width either differ outright or hand the question to their tails. */
  lemma FixedPart(x: bytes, y: bytes, s: bytes, t: bytes)
    requires |x| == |y|
    ensures StartsWith(x + s, y + t) <==> x == y && StartsWith(s, t)
  {
    if |t| <= |s| {
      assert (x + s)[..|y + t|] == x + s[..|t|];
      assert (x + s[..|t|])[..|x|] == x && (y + t)[..|x|] == y;
      assert (x + s[..|t|])[|x|..] == s[..|t|] && (y + t)[|x|..] == t;
    }
  }

  lemma BePart(a: nat, b: nat, w: nat, s: bytes, t: bytes)
    requires a < Pow256(w) && b < Pow256(w)
    ensures StartsWith(BigEndian(a, w) + s, BigEndian(b, w) + t) <==> a == b && StartsWith(s, t)
  {
    FixedPart(BigEndian(a, w), BigEndian(b, w), s, t);
    BigEndianOrder(a, b, w);
  }

  lemma Widths()
    ensures Pow256(2) == 0x1_0000 && Pow256(4) == 0x1_0000_0000 && Pow256(8) == 0x1_0000_0000_0000_0000
  {
    assert Pow256(1) == 256 * Pow256(0);
    assert Pow256(2) == 256 * Pow256(1);
    assert Pow256(3) == 256 * Pow256(2);
    assert Pow256(4) == 256 * Pow256(3);
    assert Pow256(5) == 256 * Pow256(4);
    assert Pow256(6) == 256 * Pow256(5);
    assert Pow256(7) == 256 * Pow256(6);
    assert Pow256(8) == 256 * Pow256(7);
  }

  lemma RepoPart(a: RepoId, b: RepoId, s: bytes, t: bytes)
    ensures StartsWith(RepoBytes(a) + s, RepoBytes(b) + t) <==> a == b && StartsWith(s, t)
  {
    Widths();
    BePart(a, b, 4, s, t);
  }

  lemma TimePart(a: Millis, b: Millis, s: bytes, t: bytes)
    ensures StartsWith(TimeBytes(a) + s, TimeBytes(b) + t) <==> a == b && StartsWith(s, t)
  {
    Widths();
    BePart(0xFFFF_FFFF_FFFF_FFFF - a, 0xFFFF_FFFF_FFFF_FFFF - b, 8, s, t);
  }

  lemma ShortPart(a: Short, b: Short, s: bytes, t: bytes)
    ensures StartsWith(ShortBytes(a) + s, ShortBytes(b) + t) <==> a == b && StartsWith(s, t)
  {
    Widths();
    BePart(a, b, 2, s, t);
  }

  /** The algorithm byte fixes a digest's length, so no digest is a prefix of another. */
  lemma DigestPart(a: Digest, b: Digest, s: bytes, t: bytes)
    ensures StartsWith(DigestBytes(a) + s, DigestBytes(b) + t) <==> a == b && StartsWith(s, t)
  {
    if a.Sha256? == b.Sha256? {
      FixedPart(DigestBytes(a), DigestBytes(b), s, t);
      assert DigestBytes(a)[1..] == a.raw && DigestBytes(b)[1..] == b.raw;
    } else {
      assert (DigestBytes(a) + s)[0] != (DigestBytes(b) + t)[0];
      HeadDiffers(DigestBytes(a) + s, DigestBytes(b) + t);
    }
  }

  lemma HeadDiffers(x: bytes, y: bytes)
    requires x != [] && y != [] && x[0] != y[0]
    ensures !StartsWith(x, y)
  {
    if |y| <= |x| { assert x[..|y|][0] == x[0]; }
  }

  /** NUL ends a tag unambiguously, because no tag contains one. */
  lemma {:induction false} TagPart(a: Tag, b: Tag, s: bytes, t: bytes)
    ensures StartsWith(a + ([0] + s), b + ([0] + t)) <==> a == b && StartsWith(s, t)
    decreases |a|
  {
    var x, y := a + ([0] + s), b + ([0] + t);
    if a == [] && b == [] {
      assert x == [0] + s && y == [0] + t;
      FixedPart([0], [0], s, t);
    } else if a == [] || b == [] || a[0] != b[0] {
      assert x[0] == (if a == [] then 0 else a[0]) && y[0] == (if b == [] then 0 else b[0]);
      HeadDiffers(x, y);
    } else {
      var a1: Tag, b1: Tag := a[1..], b[1..];
      TagPart(a1, b1, s, t);
      assert x == [a[0]] + (a1 + ([0] + s)) && y == [b[0]] + (b1 + ([0] + t));
      FixedPart([a[0]], [b[0]], a1 + ([0] + s), b1 + ([0] + t));
      assert a == [a[0]] + a1 && b == [b[0]] + b1;
    }
  }

  /** A component that is the whole of what is being compared against. */
  lemma Whole(x: bytes)
    ensures x + [] == x && StartsWith(x, [])
  {}

  // --- ranges -----------------------------------------------------------

  /** A stored key starts with a scan prefix exactly when it is one of the keys that prefix is for. */
  lemma PrefixesAreExact(k: Key, g: Range)
    ensures StartsWith(Encode(k), EncodeRange(g)) <==> InRange(k, g)
  {
    FixedPart([Letter(k)], [RangeLetter(g)], Body(k), RangeBody(g));
    if Letter(k) == RangeLetter(g) {
      BodiesMatch(k, g);
    } else {
      LettersDecide(k, g);
    }
  }

  lemma LettersDecide(k: Key, g: Range)
    requires Letter(k) != RangeLetter(g)
    ensures !InRange(k, g)
  {}

  lemma BodiesMatch(k: Key, g: Range)
    requires Letter(k) == RangeLetter(g)
    ensures StartsWith(Body(k), RangeBody(g)) <==> InRange(k, g)
  {
    Whole(RangeBody(g));
    match g {
      case Blobs =>
      case Marks =>
      case Members =>
      case Uploads =>
      case DeadRepos =>
      case NamesFrom(_) =>
      case CountersOfManifest(_, _) => CounterBodiesMatch(k, g);
      case CountersOfTag(_, _) => CounterBodiesMatch(k, g);
      case CountersIn(_, _) => CounterBodiesMatch(k, g);
      case ManifestAt(r, d) => ExactMatch(k.repo, k.digest, r, d);
      case MemberAt(r, d) => ExactMatch(k.repo, k.digest, r, d);
      case _ => if WholeRepo(g) { RepoBodiesMatch(k, g); } else { ObjectBodiesMatch(k, g); }
    }
  }

  predicate WholeRepo(g: Range) {
    || g.ManifestsIn? || g.BodiesIn? || g.TagsIn? || g.ManifestTagsIn? || g.MembersIn? || g.ChildrenIn? || g.ReferrersIn?
    || g.HistoryIn? || g.ManifestHistoryIn?
  }

  predicate OneObject(g: Range) {
    || g.TagsOf? || g.RefsOf? || g.RefsIn? || g.ParentsOf? || g.ReferrersOf? || g.HistoryOf? || g.ManifestHistoryOf?
  }

  lemma RepoBodiesMatch(k: Key, g: Range)
    requires WholeRepo(g) && Letter(k) == RangeLetter(g)
    ensures StartsWith(Body(k), RangeBody(g)) <==> InRange(k, g)
  {
    var r := g.repo;
    Whole(RepoBytes(r));
    match k {
      case M(_, d) => RepoPart(k.repo, r, DigestBytes(d), []);
      case Z(_, d) => RepoPart(k.repo, r, DigestBytes(d), []);
      case T(_, t) => RepoPart(k.repo, r, t, []);
      case G(_, d, t) => RepoPart(k.repo, r, DigestBytes(d) + t, []);
      case P(_, d) => RepoPart(k.repo, r, DigestBytes(d), []);
      case S(_, c, p) => RepoPart(k.repo, r, DigestBytes(c) + DigestBytes(p), []);
      case F(_, s, f) => RepoPart(k.repo, r, DigestBytes(s) + DigestBytes(f), []);
      case H(_, t, at, d) => RepoPart(k.repo, r, t + ([0] + (TimeBytes(at) + DigestBytes(d))), []);
      case J(_, d, at, t) => RepoPart(k.repo, r, DigestBytes(d) + (TimeBytes(at) + t), []);
    }
  }

  lemma ObjectBodiesMatch(k: Key, g: Range)
    requires OneObject(g) && Letter(k) == RangeLetter(g)
    ensures StartsWith(Body(k), RangeBody(g)) <==> InRange(k, g)
  {
    match g {
      case TagsOf(r, d) =>
        RepoPart(k.repo, r, DigestBytes(k.digest) + k.tag, DigestBytes(d));
        Whole(DigestBytes(d));
        DigestPart(k.digest, d, k.tag, []);
      case RefsOf(b) =>
        Whole(DigestBytes(b));
        DigestPart(k.blob, b, RepoBytes(k.repo) + DigestBytes(k.manifest), []);
      case RefsIn(b, r) =>
        DigestPart(k.blob, b, RepoBytes(k.repo) + DigestBytes(k.manifest), RepoBytes(r));
        Whole(RepoBytes(r));
        RepoPart(k.repo, r, DigestBytes(k.manifest), []);
      case ParentsOf(r, c) =>
        RepoPart(k.repo, r, DigestBytes(k.child) + DigestBytes(k.parent), DigestBytes(c));
        Whole(DigestBytes(c));
        DigestPart(k.child, c, DigestBytes(k.parent), []);
      case ReferrersOf(r, s) =>
        RepoPart(k.repo, r, DigestBytes(k.subject) + DigestBytes(k.referrer), DigestBytes(s));
        Whole(DigestBytes(s));
        DigestPart(k.subject, s, DigestBytes(k.referrer), []);
      case HistoryOf(r, t) =>
        RepoPart(k.repo, r, k.tag + ([0] + (TimeBytes(k.at) + DigestBytes(k.digest))), t + [0]);
        assert t + [0] == t + ([0] + []);
        TagPart(k.tag, t, TimeBytes(k.at) + DigestBytes(k.digest), []);
      case ManifestHistoryOf(r, d) =>
        RepoPart(k.repo, r, DigestBytes(k.digest) + (TimeBytes(k.at) + k.tag), DigestBytes(d));
        Whole(DigestBytes(d));
        DigestPart(k.digest, d, TimeBytes(k.at) + k.tag, []);
    }
  }

  lemma ExactMatch(r: RepoId, d: Digest, r': RepoId, d': Digest)
    ensures StartsWith(RepoBytes(r) + DigestBytes(d), RepoBytes(r') + DigestBytes(d')) <==> r == r' && d == d'
  {
    RepoPart(r, r', DigestBytes(d), DigestBytes(d'));
    Whole(DigestBytes(d));
    Whole(DigestBytes(d'));
    DigestPart(d, d', [], []);
  }

  /** What follows the scope byte of a counter key. */
  function CounterTail(k: Key): bytes
    requires Letter(k) == 65
  {
    match k
    case CountManifest(r, d, day, sh) => RepoBytes(r) + (DigestBytes(d) + (ShortBytes(day) + ShortBytes(sh)))
    case CountTag(r, t, day, sh) => RepoBytes(r) + (t + ([0] + (ShortBytes(day) + ShortBytes(sh))))
    case CountRepo(r, day, sh) => RepoBytes(r) + (ShortBytes(day) + ShortBytes(sh))
  }

  function CounterScope(k: Key): Scope {
    if k.CountManifest? then ManifestScope else if k.CountTag? then TagScope else RepoScope
  }

  lemma CounterBodiesMatch(k: Key, g: Range)
    requires Letter(k) == 65 == RangeLetter(g)
    ensures StartsWith(Body(k), RangeBody(g)) <==> InRange(k, g)
  {
    var scope := if g.CountersOfManifest? then ManifestScope else if g.CountersOfTag? then TagScope else g.scope;
    assert Body(k) == [ScopeByte(CounterScope(k))] + CounterTail(k);
    var tail := RangeBody(g)[1..];
    assert RangeBody(g) == [ScopeByte(scope)] + tail;
    FixedPart([ScopeByte(CounterScope(k))], [ScopeByte(scope)], CounterTail(k), tail);
    if CounterScope(k) == scope {
      match g {
        case CountersOfManifest(r, d) =>
          var days := ShortBytes(k.day) + ShortBytes(k.shard);
          assert tail == RepoBytes(r) + DigestBytes(d);
          RepoPart(k.repo, r, DigestBytes(k.digest) + days, DigestBytes(d));
          Whole(DigestBytes(d));
          DigestPart(k.digest, d, days, []);
        case CountersOfTag(r, t) =>
          var days := ShortBytes(k.day) + ShortBytes(k.shard);
          assert tail == RepoBytes(r) + (t + [0]);
          RepoPart(k.repo, r, k.tag + ([0] + days), t + [0]);
          assert t + [0] == t + ([0] + []);
          TagPart(k.tag, t, days, []);
        case CountersIn(_, r) =>
          assert tail == RepoBytes(r) == RepoBytes(r) + [];
          RepoPart(k.repo, r, CounterTail(k)[4..], []);
          assert CounterTail(k) == RepoBytes(k.repo) + CounterTail(k)[4..];
      }
    }
  }

  // --- injectivity ------------------------------------------------------

  lemma BothWays(x: bytes, y: bytes)
    ensures x == y <==> StartsWith(x, y) && StartsWith(y, x)
  {}

  /** No two logical keys share an encoding: ranges are disjoint and injective. */
  lemma EncodeIsInjective(a: Key, b: Key)
    requires Encode(a) == Encode(b)
    ensures a == b
  {
    assert Letter(a) == Encode(a)[0] == Encode(b)[0] == Letter(b);
    assert Body(a) == Encode(a)[1..] == Encode(b)[1..] == Body(b);
    BothWays(Body(a), Body(b));
    if Letter(a) == 65 {
      CounterInjective(a, b);
    } else if Composite(a) {
      CompositeInjective(a, b);
    } else {
      SimpleInjective(a, b);
    }
  }

  predicate Composite(k: Key) { k.G? || k.R? || k.S? || k.F? || k.H? || k.J? }

  lemma SimpleInjective(a: Key, b: Key)
    requires Letter(a) == Letter(b) != 65
    requires StartsWith(Body(a), Body(b)) && StartsWith(Body(b), Body(a))
    requires !Composite(a)
    ensures a == b
  {
    match a {
      case M(r, d) => ExactMatch(r, d, b.repo, b.digest);
      case Z(r, d) => ExactMatch(r, d, b.repo, b.digest);
      case P(r, d) => ExactMatch(r, d, b.repo, b.digest);
      case T(r, t) => RepoPart(r, b.repo, t, b.tag); RepoPart(b.repo, r, b.tag, t); BothWays(t, b.tag);
      case B(d) => Whole(DigestBytes(d)); Whole(DigestBytes(b.digest)); DigestPart(d, b.digest, [], []);
      case C(d) => Whole(DigestBytes(d)); Whole(DigestBytes(b.digest)); DigestPart(d, b.digest, [], []);
      case U(u) => BothWays(u, b.upload);
      case Dead(r) => Whole(RepoBytes(r)); Whole(RepoBytes(b.repo)); RepoPart(r, b.repo, [], []);
      case I(r) => Whole(RepoBytes(r)); Whole(RepoBytes(b.repo)); RepoPart(r, b.repo, [], []);
      case N(n) => BothWays(n, b.name);
      case Version =>
    }
  }

  lemma CompositeInjective(a: Key, b: Key)
    requires Letter(a) == Letter(b) != 65
    requires StartsWith(Body(a), Body(b)) && StartsWith(Body(b), Body(a))
    requires Composite(a)
    ensures a == b
  {
    match a {
      case G(r, d, t) =>
        RepoPart(r, b.repo, DigestBytes(d) + t, DigestBytes(b.digest) + b.tag);
        RepoPart(b.repo, r, DigestBytes(b.digest) + b.tag, DigestBytes(d) + t);
        DigestPart(d, b.digest, t, b.tag); DigestPart(b.digest, d, b.tag, t); BothWays(t, b.tag);
      case R(x, r, m) =>
        DigestPart(x, b.blob, RepoBytes(r) + DigestBytes(m), RepoBytes(b.repo) + DigestBytes(b.manifest));
        ExactMatch(r, m, b.repo, b.manifest);
      case S(r, c, p) =>
        RepoPart(r, b.repo, DigestBytes(c) + DigestBytes(p), DigestBytes(b.child) + DigestBytes(b.parent));
        PairMatch(c, p, b.child, b.parent);
      case F(r, s, f) =>
        RepoPart(r, b.repo, DigestBytes(s) + DigestBytes(f), DigestBytes(b.subject) + DigestBytes(b.referrer));
        PairMatch(s, f, b.subject, b.referrer);
      case H(r, t, at, d) =>
        RepoPart(r, b.repo, t + ([0] + (TimeBytes(at) + DigestBytes(d))), b.tag + ([0] + (TimeBytes(b.at) + DigestBytes(b.digest))));
        TagPart(t, b.tag, TimeBytes(at) + DigestBytes(d), TimeBytes(b.at) + DigestBytes(b.digest));
        TimePart(at, b.at, DigestBytes(d), DigestBytes(b.digest));
        Whole(DigestBytes(d)); Whole(DigestBytes(b.digest)); DigestPart(d, b.digest, [], []);
      case J(r, d, at, t) =>
        RepoPart(r, b.repo, DigestBytes(d) + (TimeBytes(at) + t), DigestBytes(b.digest) + (TimeBytes(b.at) + b.tag));
        RepoPart(b.repo, r, DigestBytes(b.digest) + (TimeBytes(b.at) + b.tag), DigestBytes(d) + (TimeBytes(at) + t));
        DigestPart(d, b.digest, TimeBytes(at) + t, TimeBytes(b.at) + b.tag);
        DigestPart(b.digest, d, TimeBytes(b.at) + b.tag, TimeBytes(at) + t);
        TimePart(at, b.at, t, b.tag); TimePart(b.at, at, b.tag, t); BothWays(t, b.tag);
    }
  }

  lemma PairMatch(a: Digest, b: Digest, a': Digest, b': Digest)
    ensures StartsWith(DigestBytes(a) + DigestBytes(b), DigestBytes(a') + DigestBytes(b')) <==> a == a' && b == b'
  {
    DigestPart(a, a', DigestBytes(b), DigestBytes(b'));
    Whole(DigestBytes(b));
    Whole(DigestBytes(b'));
    DigestPart(b, b', [], []);
  }

  lemma DaysMatch(a: Short, x: Short, b: Short, y: Short)
    ensures StartsWith(ShortBytes(a) + ShortBytes(x), ShortBytes(b) + ShortBytes(y)) <==> a == b && x == y
  {
    ShortPart(a, b, ShortBytes(x), ShortBytes(y));
    Whole(ShortBytes(x));
    Whole(ShortBytes(y));
    ShortPart(x, y, [], []);
  }

  lemma CounterInjective(a: Key, b: Key)
    requires Letter(a) == Letter(b) == 65
    requires StartsWith(Body(a), Body(b))
    ensures a == b
  {
    assert Body(a) == [ScopeByte(CounterScope(a))] + CounterTail(a);
    assert Body(b) == [ScopeByte(CounterScope(b))] + CounterTail(b);
    FixedPart([ScopeByte(CounterScope(a))], [ScopeByte(CounterScope(b))], CounterTail(a), CounterTail(b));
    var days, days' := ShortBytes(a.day) + ShortBytes(a.shard), ShortBytes(b.day) + ShortBytes(b.shard);
    DaysMatch(a.day, a.shard, b.day, b.shard);
    match a {
      case CountManifest(r, d, _, _) =>
        RepoPart(r, b.repo, DigestBytes(d) + days, DigestBytes(b.digest) + days');
        DigestPart(d, b.digest, days, days');
      case CountTag(r, t, _, _) =>
        RepoPart(r, b.repo, t + ([0] + days), b.tag + ([0] + days'));
        TagPart(t, b.tag, days, days');
      case CountRepo(r, _, _) => RepoPart(r, b.repo, days, days');
    }
  }
}
