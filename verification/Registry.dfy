/**
 The registry's mutations, each as the batch it commits: what the batch deletes and what it
 leaves behind, computed from the store the plan read.
 */
module Registry {
  import opened Bytes
  import opened Results
  import opened Paging
  import opened Keys
  import opened Store
  import opened Interner

  datatype Descriptor = Descriptor(digest: Digest, size: nat, foreign: bool)

  datatype Document = Document(blobs: seq<Descriptor>, children: seq<Digest>, subject: Option<Digest>)

  /**
   What lies outside the metadata layer: a digest determines its manifest document, and the
   legacy artifact naming convention reads a subject out of some tags.
   */
  datatype Config = Config(doc: Digest -> Document, subjectOf: Tag -> Option<Digest>)

  datatype Error =
    | NameUnknown | ManifestUnknown | BlobUnknown | DigestInvalid | TagInvalid(tag: Tag)
    | ManifestBlobUnknown(digest: Digest) | IdsExhausted

  function Secs(now: Millis): nat { now / 1000 }

  // --- reads ------------------------------------------------------------

  predicate Referenced(s: Data, b: Digest) { Exists(s, RefsOf(b)) }

  predicate ReferencedIn(s: Data, b: Digest, r: RepoId) { Exists(s, RefsIn(b, r)) }

  lemma ReferencedSomewhere(s: Data, d: Digest, r: RepoId)
    requires ReferencedIn(s, d, r)
    ensures Referenced(s, d)
  {
    var k :| k in s && InRange(k, RefsIn(d, r));
    assert InRange(k, RefsOf(d));
  }

  /** Existence of `B` is never enough: the repository must reference or hold the blob. */
  predicate Servable(s: Data, r: RepoId, b: Digest) {
    ReferencedIn(s, b, r) || P(r, b) in s
  }

  predicate Present(s: Data, r: RepoId, b: Digest) {
    B(b) in s && Servable(s, r, b)
  }

  function TagAt(s: Data, r: RepoId, t: Tag): Option<Digest> {
    if T(r, t) in s && s[T(r, t)].TagV? then Some(s[T(r, t)].target) else None
  }

  function SizeOf(s: Data, b: Digest): nat {
    if B(b) in s && s[B(b)].BlobV? then s[B(b)].size else 0
  }

  function TagsPointingAt(s: Data, r: RepoId, d: Digest): set<Tag> {
    set k | k in s && InRange(k, TagsOf(r, d)) :: k.tag
  }

  // --- tags -------------------------------------------------------------

  predicate TagByte(c: byte) {
    (48 <= c <= 57) || (65 <= c <= 90) || (97 <= c <= 122) || c == 95
  }

  /** The tag grammar: one leading word byte, then up to 127 word bytes, dots or dashes. */
  predicate ValidTag(t: bytes) {
    && 1 <= |t| <= 128 && TagByte(t[0])
    && forall i :: 1 <= i < |t| ==> TagByte(t[i]) || t[i] == 45 || t[i] == 46
  }

  /** A repoint retracts the reverse edge it displaces, and the edge a legacy artifact tag synthesised. */
  function SetTagDels(cfg: Config, s: Data, r: RepoId, t: Tag, d: Digest): set<Key> {
    match TagAt(s, r, t)
    case Some(prev) =>
      if prev == d then {}
      else {G(r, prev, t)} + (match cfg.subjectOf(t) case Some(sub) => {F(r, sub, prev)} case None => {})
    case None => {}
  }

  function SetTagPuts(cfg: Config, r: RepoId, t: Tag, d: Digest, now: Millis): Data {
    map[T(r, t) := TagV(d, Secs(now)), G(r, d, t) := EdgeV,
        H(r, t, now, d) := EventV(Created), J(r, d, now, t) := EventV(Created)]
    + (match cfg.subjectOf(t) case Some(sub) => map[F(r, sub, d) := ReferrerV] case None => map[])
  }

  function DeleteTagDels(cfg: Config, r: RepoId, t: Tag, d: Digest): set<Key> {
    {T(r, t), G(r, d, t)} + (match cfg.subjectOf(t) case Some(sub) => {F(r, sub, d)} case None => {})
  }

  function DeleteTagPuts(r: RepoId, t: Tag, d: Digest, now: Millis): Data {
    map[H(r, t, now, d) := EventV(Deleted), J(r, d, now, t) := EventV(Deleted)]
  }

  /** `plan_set_tag`: the manifest must already be stored. */
  function SetTag(cfg: Config, s: Data, r: RepoId, t: Tag, d: Digest, now: Millis): Result<Effect, Error> {
    if !ValidTag(t) then Err(TagInvalid(t))
    else if M(r, d) !in s then Err(ManifestUnknown)
    else Ok(Effect(SetTagDels(cfg, s, r, t, d), SetTagPuts(cfg, r, t, d, now)))
  }

  function DeleteTag(cfg: Config, s: Data, r: RepoId, t: Tag, now: Millis): Result<Effect, Error> {
    match TagAt(s, r, t)
    case None => Err(ManifestUnknown)
    case Some(d) => Ok(Effect(DeleteTagDels(cfg, r, t, d), DeleteTagPuts(r, t, d, now)))
  }

  // --- blobs ------------------------------------------------------------

  /** An upload or a mount: `B`, a membership if there is none, and any purge mark retracted. */
  function CommitBlob(s: Data, r: RepoId, d: Digest, size: nat, now: Millis): Effect {
    Effect({C(d)},
           map[B(d) := BlobV(size)] + (if P(r, d) in s then map[] else map[P(r, d) := MemberV(size, Secs(now))]))
  }

  function DeleteBlob(s: Data, r: RepoId, b: Digest): Result<Effect, Error> {
    if !Servable(s, r, b) then Err(BlobUnknown)
    else Ok(Effect(Pool(s, RefsIn(b, r)) + {P(r, b), C(b)}, map[]))
  }

  // --- manifests --------------------------------------------------------

  /** The first layer a push must refuse: named, not foreign, and not this repository's. */
  function FirstMissingBlob(s: Data, r: RepoId, blobs: seq<Descriptor>): Option<Digest> {
    if blobs == [] then None
    else if !blobs[0].foreign && !Present(s, r, blobs[0].digest) then Some(blobs[0].digest)
    else FirstMissingBlob(s, r, blobs[1..])
  }

  function FirstMissingChild(s: Data, r: RepoId, children: seq<Digest>): Option<Digest> {
    if children == [] then None
    else if M(r, children[0]) !in s then Some(children[0])
    else FirstMissingChild(s, r, children[1..])
  }

  function FirstInvalidTag(tags: seq<Tag>): Option<Tag> {
    if tags == [] then None
    else if !ValidTag(tags[0]) then Some(tags[0])
    else FirstInvalidTag(tags[1..])
  }

  /** Layers that get edges: an absent foreign layer gets none. */
  function LinkedBlobs(s: Data, r: RepoId, blobs: seq<Descriptor>): set<Digest> {
    set i | 0 <= i < |blobs| && Present(s, r, blobs[i].digest) :: blobs[i].digest
  }

  function Layers(doc: Document): seq<Digest> {
    seq(|doc.blobs|, i requires 0 <= i < |doc.blobs| => doc.blobs[i].digest)
  }

  function RecordOf(cfg: Config, d: Digest, now: Millis): Val {
    var doc := cfg.doc(d);
    ManifestV(Layers(doc), doc.children, doc.subject, Secs(now))
  }

  /** `m` holds `v` under every one of `keys` and nothing else. */
  ghost predicate Holds(m: Data, keys: set<Key>, v: Val) {
    (forall k :: k in m <==> k in keys) && (forall k :: k in m ==> m[k] == v)
  }

  lemma {:induction false} HoldsExists(keys: set<Key>, v: Val)
    ensures exists m: Data :: Holds(m, keys, v)
  {
    if keys == {} {
      assert Holds(map[], keys, v);
    } else {
      var k :| k in keys;
      HoldsExists(keys - {k}, v);
      var m: Data :| Holds(m, keys - {k}, v);
      assert Holds(m[k := v], keys, v);
    }
  }

  /** The same value written under every one of `keys`. */
  ghost function Each(keys: set<Key>, v: Val): (m: Data)
    ensures Holds(m, keys, v)
  {
    HoldsExists(keys, v);
    var m: Data :| Holds(m, keys, v); m
  }

  /** A membership for every linked blob that has none, at its recorded size. */
  ghost predicate Joins(m: Data, s: Data, r: RepoId, linked: set<Digest>, now: Millis) {
    && (forall k :: k in m <==> k.P? && k.repo == r && k.digest in linked && k !in s)
    && (forall k :: k in m ==> m[k] == MemberV(SizeOf(s, k.digest), Secs(now)))
  }

  lemma {:induction false} JoinsExists(s: Data, r: RepoId, linked: set<Digest>, now: Millis)
    ensures exists m: Data :: Joins(m, s, r, linked, now)
  {
    if linked == {} {
      assert Joins(map[], s, r, linked, now);
    } else {
      var b :| b in linked;
      JoinsExists(s, r, linked - {b}, now);
      var m: Data :| Joins(m, s, r, linked - {b}, now);
      var more := if P(r, b) in s then m else m[P(r, b) := MemberV(SizeOf(s, b), Secs(now))];
      assert Joins(more, s, r, linked, now);
    }
  }

  ghost function MemberPuts(s: Data, r: RepoId, linked: set<Digest>, now: Millis): (m: Data)
    ensures Joins(m, s, r, linked, now)
  {
    JoinsExists(s, r, linked, now);
    var m: Data :| Joins(m, s, r, linked, now); m
  }

  ghost function RefPuts(r: RepoId, d: Digest, linked: set<Digest>): Data {
    Each(set b | b in linked :: R(b, r, d), EdgeV)
  }

  ghost function BlobPuts(s: Data, r: RepoId, d: Digest, linked: set<Digest>, now: Millis): Data {
    MemberPuts(s, r, linked, now) + RefPuts(r, d, linked)
  }

  ghost function ChildPuts(r: RepoId, d: Digest, children: set<Digest>): Data {
    Each(set c | c in children :: S(r, c, d), EdgeV)
  }

  function DocumentPuts(cfg: Config, r: RepoId, d: Digest, now: Millis): Data {
    map[M(r, d) := RecordOf(cfg, d, now), Z(r, d) := BodyV]
    + (match cfg.doc(d).subject case Some(sub) => map[F(r, sub, d) := ReferrerV] case None => map[])
  }

  function TagSetDels(cfg: Config, s: Data, r: RepoId, tags: set<Tag>, d: Digest): set<Key> {
    set t, k | t in tags && k in SetTagDels(cfg, s, r, t, d) :: k
  }

  ghost function TagRecords(r: RepoId, tags: set<Tag>, d: Digest, now: Millis): Data {
    Each(set t | t in tags :: T(r, t), TagV(d, Secs(now)))
  }

  ghost function TagEdges(r: RepoId, tags: set<Tag>, d: Digest): Data {
    Each(set t | t in tags :: G(r, d, t), EdgeV)
  }

  /** The same event under the tag and under the manifest, for every tag. */
  ghost function TagEvents(r: RepoId, tags: set<Tag>, d: Digest, now: Millis, kind: EventKind): Data {
    Each(set t | t in tags :: H(r, t, now, d), EventV(kind)) + Each(set t | t in tags :: J(r, d, now, t), EventV(kind))
  }

  ghost function TagReferrers(cfg: Config, r: RepoId, tags: set<Tag>, d: Digest): Data {
    Each(set sub | sub in ArtifactSubjects(cfg, tags) :: F(r, sub, d), ReferrerV)
  }

  ghost function TagSetPuts(cfg: Config, r: RepoId, tags: set<Tag>, d: Digest, now: Millis): Data {
    TagRecords(r, tags, d, now) + TagEdges(r, tags, d) + TagEvents(r, tags, d, now, Created) + TagReferrers(cfg, r, tags, d)
  }

  function ArtifactSubjects(cfg: Config, tags: set<Tag>): set<Digest> {
    set t | t in tags && cfg.subjectOf(t).Some? :: cfg.subjectOf(t).value
  }

  function MarkKeys(bs: set<Digest>): set<Key> {
    set b | b in bs :: C(b)
  }

  function PushDeletes(cfg: Config, s: Data, r: RepoId, d: Digest, tags: set<Tag>): set<Key> {
    MarkKeys(LinkedBlobs(s, r, cfg.doc(d).blobs)) + TagSetDels(cfg, s, r, tags, d)
  }

  ghost function PushWrites(cfg: Config, s: Data, r: RepoId, d: Digest, tags: set<Tag>, now: Millis): Data {
    BlobPuts(s, r, d, LinkedBlobs(s, r, cfg.doc(d).blobs), now) + ChildPuts(r, d, Elements(cfg.doc(d).children))
    + DocumentPuts(cfg, r, d, now) + TagSetPuts(cfg, r, tags, d, now)
  }

  /** A push that planned: every edge it implies and every tag it lands under, in one batch. */
  ghost function PushEffect(cfg: Config, s: Data, r: RepoId, d: Digest, tags: set<Tag>, now: Millis): Effect {
    Effect(PushDeletes(cfg, s, r, d, tags), PushWrites(cfg, s, r, d, tags, now))
  }

  /** Why a push is refused, in the order the plan finds out. `claimed` is the digest pushed by, if any. */
  function PushRefusal(cfg: Config, s: Data, r: RepoId, d: Digest, claimed: Option<Digest>, tags: seq<Tag>): Option<Error> {
    if claimed.Some? && claimed.value != d then Some(DigestInvalid)
    else if FirstMissingBlob(s, r, cfg.doc(d).blobs).Some? then
      Some(ManifestBlobUnknown(FirstMissingBlob(s, r, cfg.doc(d).blobs).value))
    else if FirstMissingChild(s, r, cfg.doc(d).children).Some? then
      Some(ManifestBlobUnknown(FirstMissingChild(s, r, cfg.doc(d).children).value))
    else if FirstInvalidTag(tags).Some? then Some(TagInvalid(FirstInvalidTag(tags).value))
    else None
  }

  /** `plan_manifest_put_tagged` with reference validation on. */
  ghost function Push(cfg: Config, s: Data, r: RepoId, d: Digest, claimed: Option<Digest>, tags: seq<Tag>, now: Millis): Result<Effect, Error> {
    match PushRefusal(cfg, s, r, d, claimed, tags)
    case Some(e) => Err(e)
    case None => Ok(PushEffect(cfg, s, r, d, Elements(tags), now))
  }

  function DeleteManifestDels(cfg: Config, s: Data, r: RepoId, d: Digest, rec: Val, tags: set<Tag>): set<Key>
    requires rec.ManifestV?
  {
    {M(r, d), Z(r, d)}
    + (set b | b in rec.layers :: R(b, r, d))
    + (set c | c in rec.children :: S(r, c, d))
    + (match rec.subject case Some(sub) => {F(r, sub, d)} case None => {})
    + Pool(s, ParentsOf(r, d))
    + (set t, k | t in tags && k in DeleteTagDels(cfg, r, t, d) :: k)
  }

  /** Remove a manifest, every edge that named it, and every tag that pointed at it. */
  ghost function DeleteManifest(cfg: Config, s: Data, r: RepoId, d: Digest, now: Millis): Result<Effect, Error> {
    if M(r, d) !in s || !s[M(r, d)].ManifestV? then Err(ManifestUnknown)
    else
      var tags := TagsPointingAt(s, r, d);
      Ok(Effect(DeleteManifestDels(cfg, s, r, d, s[M(r, d)], tags), TagEvents(r, tags, d, now, Deleted)))
  }

  /** Untagged, no index's child, no live subject, and old enough. */
  predicate Purgeable(s: Data, r: RepoId, d: Digest, pushedBefore: nat) {
    && M(r, d) in s && s[M(r, d)].ManifestV?
    && s[M(r, d)].pushedAt <= pushedBefore
    && !Exists(s, TagsOf(r, d))
    && !Exists(s, ParentsOf(r, d))
    && (s[M(r, d)].subject.Some? ==> M(r, s[M(r, d)].subject.value) !in s)
  }

  // --- repositories -----------------------------------------------------

  function Tombstone(s: Data, name: Name, r: RepoId): Effect {
    Effect({N(name), I(r)}, map[Dead(r) := DeadV(name)])
  }

  /** The blob edges of one page of a dead repository's manifests, found through their records. */
  function SweepRefs(s: Data, r: RepoId, page: set<Digest>): Effect {
    Effect(set d, b | d in page && M(r, d) in s && s[M(r, d)].ManifestV? && b in s[M(r, d)].layers :: R(b, r, d), map[])
  }

  function RepoRanges(r: RepoId): seq<Range> {
    [ManifestsIn(r), BodiesIn(r), TagsIn(r), ManifestTagsIn(r), MembersIn(r), ChildrenIn(r), ReferrersIn(r),
     HistoryIn(r), ManifestHistoryIn(r),
     CountersIn(ManifestScope, r), CountersIn(TagScope, r), CountersIn(RepoScope, r)]
  }

  /** Keys of the ranges that carry the repository id up front, which is all of them but `R`. */
  predicate KeyedByRepo(k: Key, r: RepoId) {
    match k
    case M(x, _) => x == r case Z(x, _) => x == r case T(x, _) => x == r case G(x, _, _) => x == r
    case P(x, _) => x == r case S(x, _, _) => x == r case F(x, _, _) => x == r
    case H(x, _, _, _) => x == r case J(x, _, _, _) => x == r
    case CountManifest(x, _, _, _) => x == r case CountTag(x, _, _, _) => x == r case CountRepo(x, _, _) => x == r
    case _ => false
  }

  /** Drop every range keyed by the id, and the record that said the work was outstanding. */
  function FinishSweep(s: Data, r: RepoId): Data {
    s - (set k | k in s && (KeyedByRepo(k, r) || k == Dead(r)))
  }

  predicate RepoIsEmpty(s: Data, r: RepoId, live: set<RepoId>) {
    && r !in live
    && !Exists(s, ManifestsIn(r)) && !Exists(s, MembersIn(r)) && !Exists(s, TagsIn(r))
    && !Exists(s, HistoryIn(r)) && !Exists(s, ManifestHistoryIn(r))
    && !Exists(s, CountersIn(ManifestScope, r)) && !Exists(s, CountersIn(TagScope, r)) && !Exists(s, CountersIn(RepoScope, r))
  }

  /** Release an empty name: nothing is swept, because nothing is there. */
  function Retire(s: Data, name: Name, live: set<RepoId>, watermark: RepoId): Option<Effect> {
    match IdOf(s, name)
    case None => None
    case Some(r) => if r < watermark && RepoIsEmpty(s, r, live) then Some(Effect({N(name), I(r)}, map[])) else None
  }

  // --- purge ------------------------------------------------------------

  /** `now` less a span in seconds, floored at the epoch. */
  function Ago(now: Millis, span: nat): nat {
    if Secs(now) < span then 0 else Secs(now) - span
  }

  predicate Stale(s: Data, k: Key, cutoff: nat)
  {
    k.P? && k in s && s[k].MemberV? && s[k].addedAt <= cutoff && !ReferencedIn(s, k.digest, k.repo)
  }

  /** One page of the membership sweep: stale memberships go, and restart their blobs' clocks. */
  function SweepMembers(s: Data, page: set<Key>, cutoff: nat): Effect {
    var stale := set k | k in page && Stale(s, k, cutoff);
    Effect(stale + (set k | k in stale :: C(k.digest)), map[])
  }

  predicate Marked(s: Data, d: Digest) { C(d) in s && s[C(d)].MarkV? }

  /** One page of the blob scan: referenced blobs lose a mark, unreferenced unmarked ones gain one. */
  ghost function ScanBlobs(s: Data, page: set<Digest>, now: Millis): Effect {
    Effect(set d | d in page && Referenced(s, d) :: C(d),
           Each(set d | d in page && !Referenced(s, d) && C(d) !in s :: C(d), MarkV(Secs(now))))
  }

  predicate Ripe(s: Data, d: Digest, cutoff: nat) {
    B(d) in s && Marked(s, d) && s[C(d)].seenAt <= cutoff && !Referenced(s, d)
  }

  function CollectBlob(s: Data, d: Digest, cutoff: nat): Option<Effect> {
    if Ripe(s, d, cutoff) then Some(Effect({B(d), C(d)}, map[])) else None
  }

  // --- what a page holds ------------------------------------------------

  function BlobsOf(keys: seq<Key>): set<Digest> {
    set k | k in keys && k.B? :: k.digest
  }

  function ManifestsOf(keys: seq<Key>): set<Digest> {
    set k | k in keys && k.M? :: k.digest
  }

  function MarkedBy(s: Data, page: set<Digest>): set<Digest> {
    set d | d in page && !Referenced(s, d) && C(d) !in s
  }

  function RipeIn(s: Data, page: set<Digest>, cutoff: nat): set<Digest> {
    set d | d in page && Ripe(s, d, cutoff)
  }
}
