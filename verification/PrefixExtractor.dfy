/**
 The RocksDB prefix extractor. A prefix filter is sound only if whether two keys share a group
 can be read off the prefix, and if a group is one contiguous run of the key order.
 */
module PrefixExtractor {
  import opened Bytes
  import opened Results
  import opened Keys

  function DigestGroup(key: bytes, at: nat): Option<nat> {
    if |key| <= at then None
    else match EncodedLength(key[at]) case Some(n) => Some(at + n) case None => None
  }

  /** Group length for a key, or `None` when its type has no group worth filtering. */
  function PrefixLength(key: bytes): Option<nat> {
    if key == [] then None
    else if key[0] == 82 then DigestGroup(key, 1)
    else if key[0] in {71, 83, 70} then DigestGroup(key, 5)
    else if key[0] == 65 then
      if |key| < 2 then None
      else if key[1] == 109 then DigestGroup(key, 6)
      else if key[1] == 116 || key[1] == 114 then Some(6)
      else None
    else if key[0] in {77, 90, 84, 80, 72, 74} then Some(5)
    else None
  }

  predicate InDomain(key: bytes) {
    PrefixLength(key).Some? && |key| >= PrefixLength(key).value
  }

  function Transform(key: bytes): bytes {
    if InDomain(key) then key[..PrefixLength(key).value] else key
  }

  /** The bytes that decide the length are inside the prefix, so the prefix decides it. */
  lemma LengthIsInThePrefix(key: bytes, other: bytes)
    requires InDomain(key) && StartsWith(other, Transform(key))
    ensures InDomain(other) && Transform(other) == Transform(key)
  {
    var n := PrefixLength(key).value;
    var p := Transform(key);
    assert other[..n] == p == key[..n];
    forall i | 0 <= i < n ensures other[i] == key[i] { assert other[..n][i] == key[..n][i]; }
    assert PrefixLength(other) == PrefixLength(key);
  }

  /** Transforming a prefix changes nothing. */
  lemma TransformIsIdempotent(key: bytes)
    ensures Transform(Transform(key)) == Transform(key)
    ensures InDomain(key) <==> InDomain(Transform(key))
  {
    if InDomain(key) {
      var p := Transform(key);
      assert StartsWith(p, p);
      LengthIsInThePrefix(key, p);
      assert |p| == PrefixLength(key).value;
    }
  }

  /** Any extension of a key in the domain stays in its group. */
  lemma ExtensionsShareTheGroup(key: bytes, tail: bytes)
    requires InDomain(key)
    ensures InDomain(key + tail) && Transform(key + tail) == Transform(key)
  {
    assert (key + tail)[..|Transform(key)|] == Transform(key);
    LengthIsInThePrefix(key, key + tail);
  }

  /** A group is one run of the key order: nothing foreign sorts between two of its members. */
  lemma GroupsAreContiguous(lo: bytes, key: bytes, hi: bytes)
    requires InDomain(lo) && InDomain(hi) && Transform(lo) == Transform(hi)
    requires !Less(key, lo) && !Less(hi, key)
    ensures InDomain(key) && Transform(key) == Transform(lo)
  {
    PrefixIsConvex(lo, key, hi, Transform(lo));
    LengthIsInThePrefix(lo, key);
  }

  /**
   A seek for a registry prefix that is itself in the domain can trust its group's filter: every
   stored key under the prefix is in the same group as the prefix.
   */
  lemma SeeksStayInGroup(k: Key, g: Range)
    requires InRange(k, g) && InDomain(EncodeRange(g))
    ensures InDomain(Encode(k)) && Transform(Encode(k)) == Transform(EncodeRange(g))
  {
    PrefixesAreExact(k, g);
    var p := EncodeRange(g);
    assert Encode(k) == p + Encode(k)[|p|..];
    ExtensionsShareTheGroup(p, Encode(k)[|p|..]);
  }

  /** The reference probe is such a seek, and the narrower per-repository probe shares its group. */
  lemma ReferenceProbes(r: RepoId, d: Digest)
    ensures InDomain(EncodeRange(RefsOf(d))) && Transform(EncodeRange(RefsOf(d))) == EncodeRange(RefsOf(d))
    ensures InDomain(EncodeRange(RefsIn(d, r))) && Transform(EncodeRange(RefsIn(d, r))) == EncodeRange(RefsOf(d))
  {
    var refs := EncodeRange(RefsOf(d));
    assert PrefixLength(refs) == Some(|refs|);
    assert refs[..|refs|] == refs;
    assert EncodeRange(RefsIn(d, r)) == refs + RepoBytes(r);
    ExtensionsShareTheGroup(refs, RepoBytes(r));
  }

  /** The registry prefix whose bytes are a key's group, for the keys that have one. */
  function GroupRange(k: Key): Option<Range> {
    match k
    case M(r, _) => Some(ManifestsIn(r)) case Z(r, _) => Some(BodiesIn(r)) case T(r, _) => Some(TagsIn(r))
    case P(r, _) => Some(MembersIn(r)) case H(r, _, _, _) => Some(HistoryIn(r)) case J(r, _, _, _) => Some(ManifestHistoryIn(r))
    case G(r, d, _) => Some(TagsOf(r, d)) case R(b, _, _) => Some(RefsOf(b))
    case S(r, c, _) => Some(ParentsOf(r, c)) case F(r, s, _) => Some(ReferrersOf(r, s))
    case CountManifest(r, d, _, _) => Some(CountersOfManifest(r, d))
    case CountTag(r, _, _, _) => Some(CountersIn(TagScope, r)) case CountRepo(r, _, _) => Some(CountersIn(RepoScope, r))
    case _ => None
  }

  /** Every stored key's group: its repository's range, or the one digest a lookup is for; the rest have none. */
  lemma KeyGroups(k: Key)
    ensures InDomain(Encode(k)) <==> GroupRange(k).Some?
    ensures GroupRange(k).Some? ==> Transform(Encode(k)) == EncodeRange(GroupRange(k).value)
  {
    if GroupRange(k).Some? {
      var g := GroupRange(k).value;
      RangeIsItsGroup(k);
      assert InRange(k, g);
      SeeksStayInGroup(k, g);
    }
  }

  lemma RangeIsItsGroup(k: Key)
    requires GroupRange(k).Some?
    ensures InDomain(EncodeRange(GroupRange(k).value)) && Transform(EncodeRange(GroupRange(k).value)) == EncodeRange(GroupRange(k).value)
  {
    var p := EncodeRange(GroupRange(k).value);
    assert PrefixLength(p) == Some(|p|);
    assert p[..|p|] == p;
  }
}
