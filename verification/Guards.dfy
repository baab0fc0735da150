/**
 When a call may go ahead, in terms of the keys a store holds: what a push must name, what a mount
 must come from, which manifests a purge takes and which names a retirement releases. The plans
 decide by scans and prefix probes; these are the conditions they come to.
 */
module Guards {
  import opened Results
  import opened Keys
  import opened Store
  import opened Interner
  import opened Registry

  // --- blobs ------------------------------------------------------------

  /** The repository references the blob by some manifest, or holds a membership of it. */
  ghost predicate Entitled(s: Data, r: RepoId, b: Digest) {
    P(r, b) in s || exists m: Digest :: R(b, r, m) in s
  }

  lemma ServableIff(s: Data, r: RepoId, b: Digest)
    ensures Servable(s, r, b) <==> Entitled(s, r, b)
  {
    if ReferencedIn(s, b, r) {
      var k :| k in s && InRange(k, RefsIn(b, r));
      assert k == R(b, r, k.manifest);
    }
    if m: Digest :| R(b, r, m) in s { assert InRange(R(b, r, m), RefsIn(b, r)); }
  }

  /** A mount's source, if it names one, exists and is entitled to the blob, which is there. */
  ghost predicate Offered(s: Data, from: Option<Name>, d: Digest) {
    && B(d) in s
    && (from.Some? ==> N(from.value) in s && s[N(from.value)].IdV? && Entitled(s, s[N(from.value)].id, d))
  }

  // --- pushes -----------------------------------------------------------

  predicate DigestAgrees(d: Digest, claimed: Option<Digest>) { claimed.Some? ==> claimed.value == d }

  /** A layer the push may name: left out of this registry, or stored and this repository's. */
  ghost predicate LayerMet(s: Data, r: RepoId, layer: Descriptor) {
    layer.foreign || (B(layer.digest) in s && Entitled(s, r, layer.digest))
  }

  ghost predicate LayersMet(s: Data, r: RepoId, blobs: seq<Descriptor>) {
    forall i :: 0 <= i < |blobs| ==> LayerMet(s, r, blobs[i])
  }

  predicate ChildrenMet(s: Data, r: RepoId, children: seq<Digest>) {
    forall i :: 0 <= i < |children| ==> M(r, children[i]) in s
  }

  predicate TagsMet(tags: seq<Tag>) { forall i :: 0 <= i < |tags| ==> ValidTag(tags[i]) }

  /** A push goes ahead. */
  ghost predicate Pushable(cfg: Config, s: Data, r: RepoId, d: Digest, claimed: Option<Digest>, tags: seq<Tag>) {
    && DigestAgrees(d, claimed) && LayersMet(s, r, cfg.doc(d).blobs) && ChildrenMet(s, r, cfg.doc(d).children) && TagsMet(tags)
  }

  /** The one reason a push is refused for: the first, in this order, of everything that is wrong with it. */
  ghost predicate RefusedFor(cfg: Config, s: Data, r: RepoId, d: Digest, claimed: Option<Digest>, tags: seq<Tag>, e: Error) {
    var blobs, children := cfg.doc(d).blobs, cfg.doc(d).children;
    if !DigestAgrees(d, claimed) then e == DigestInvalid
    else if !LayersMet(s, r, blobs) then
      exists i :: 0 <= i < |blobs| && !LayerMet(s, r, blobs[i]) && LayersMet(s, r, blobs[..i]) && e == ManifestBlobUnknown(blobs[i].digest)
    else if !ChildrenMet(s, r, children) then
      exists i :: 0 <= i < |children| && M(r, children[i]) !in s && ChildrenMet(s, r, children[..i]) && e == ManifestBlobUnknown(children[i])
    else
      exists i :: 0 <= i < |tags| && !ValidTag(tags[i]) && TagsMet(tags[..i]) && e == TagInvalid(tags[i])
  }

  lemma {:induction false} MissingBlob(s: Data, r: RepoId, blobs: seq<Descriptor>) returns (i: nat)
    ensures FirstMissingBlob(s, r, blobs).None? <==> LayersMet(s, r, blobs)
    ensures FirstMissingBlob(s, r, blobs).Some? ==> i < |blobs| && !LayerMet(s, r, blobs[i]) && LayersMet(s, r, blobs[..i])
    ensures FirstMissingBlob(s, r, blobs).Some? ==> FirstMissingBlob(s, r, blobs) == Some(blobs[i].digest)
  {
    i := 0;
    if blobs != [] {
      ServableIff(s, r, blobs[0].digest);
      if LayerMet(s, r, blobs[0]) {
        var j := MissingBlob(s, r, blobs[1..]);
        i := j + 1;
        assert forall k :: 1 <= k < |blobs| ==> blobs[k] == blobs[1..][k - 1];
        assert forall k :: 0 <= k < j <= |blobs| - 1 ==> blobs[1..][..j][k] == blobs[k + 1];
      }
    }
  }

  lemma {:induction false} MissingChild(s: Data, r: RepoId, children: seq<Digest>) returns (i: nat)
    ensures FirstMissingChild(s, r, children).None? <==> ChildrenMet(s, r, children)
    ensures FirstMissingChild(s, r, children).Some? ==> i < |children| && M(r, children[i]) !in s && ChildrenMet(s, r, children[..i])
    ensures FirstMissingChild(s, r, children).Some? ==> FirstMissingChild(s, r, children) == Some(children[i])
  {
    i := 0;
    if children != [] && M(r, children[0]) in s {
      var j := MissingChild(s, r, children[1..]);
      i := j + 1;
      assert forall k :: 1 <= k < |children| ==> children[k] == children[1..][k - 1];
      assert forall k :: 0 <= k < j <= |children| - 1 ==> children[1..][..j][k] == children[k + 1];
    }
  }

  lemma TagsMetIff(tags: seq<Tag>)
    ensures FirstInvalidTag(tags).None? == (var met := TagsMet(tags); met)
  {
    var i := InvalidTag(tags);
  }

  lemma {:induction false} InvalidTag(tags: seq<Tag>) returns (i: nat)
    ensures FirstInvalidTag(tags).None? <==> TagsMet(tags)
    ensures FirstInvalidTag(tags).Some? ==> i < |tags| && !ValidTag(tags[i]) && TagsMet(tags[..i])
    ensures FirstInvalidTag(tags).Some? ==> FirstInvalidTag(tags) == Some(tags[i])
  {
    i := 0;
    if tags != [] && ValidTag(tags[0]) {
      var j := InvalidTag(tags[1..]);
      i := j + 1;
      assert forall k :: 1 <= k < |tags| ==> tags[k] == tags[1..][k - 1];
      assert forall k :: 0 <= k < j <= |tags| - 1 ==> tags[1..][..j][k] == tags[k + 1];
    }
  }

  /** A push is refused exactly when something it needs is wrong, and for the first thing that is. */
  lemma RefusalIff(cfg: Config, s: Data, r: RepoId, d: Digest, claimed: Option<Digest>, tags: seq<Tag>)
    ensures PushRefusal(cfg, s, r, d, claimed, tags).None? <==> Pushable(cfg, s, r, d, claimed, tags)
    ensures PushRefusal(cfg, s, r, d, claimed, tags).Some? ==>
      RefusedFor(cfg, s, r, d, claimed, tags, PushRefusal(cfg, s, r, d, claimed, tags).value)
  {
    var i := MissingBlob(s, r, cfg.doc(d).blobs);
    var j := MissingChild(s, r, cfg.doc(d).children);
    var k := InvalidTag(tags);
  }

  /** What the other calls refuse, and as what: a bad tag before a missing manifest. */
  lemma OtherRefusals(cfg: Config, s: Data, r: RepoId, t: Tag, d: Digest, now: Millis)
    ensures match SetTag(cfg, s, r, t, d, now)
      case Ok(_) => ValidTag(t) && M(r, d) in s
      case Err(e) => if ValidTag(t) then e == ManifestUnknown && M(r, d) !in s else e == TagInvalid(t)
    ensures match DeleteTag(cfg, s, r, t, now)
      case Ok(_) => T(r, t) in s && s[T(r, t)].TagV?
      case Err(e) => e == ManifestUnknown && !(T(r, t) in s && s[T(r, t)].TagV?)
    ensures match DeleteManifest(cfg, s, r, d, now)
      case Ok(_) => M(r, d) in s && s[M(r, d)].ManifestV?
      case Err(e) => e == ManifestUnknown && !(M(r, d) in s && s[M(r, d)].ManifestV?)
    ensures match DeleteBlob(s, r, d)
      case Ok(_) => Entitled(s, r, d)
      case Err(e) => e == BlobUnknown && !Entitled(s, r, d)
  {
    ServableIff(s, r, d);
  }

  // --- purged manifests -------------------------------------------------

  /** Nothing needs the manifest: no tag, no index, no live subject, and nobody pushed it lately. */
  ghost predicate Unneeded(s: Data, r: RepoId, d: Digest, pushedBefore: nat) {
    && M(r, d) in s && s[M(r, d)].ManifestV? && s[M(r, d)].pushedAt <= pushedBefore
    && (forall t: Tag :: TagAt(s, r, t) != Some(d))
    && (forall p: Digest :: S(r, d, p) !in s)
    && (s[M(r, d)].subject.Some? ==> M(r, s[M(r, d)].subject.value) !in s)
  }

  /** The probes of the reverse range stand for the tags, because the two ranges agree. */
  lemma PurgeableIff(s: Data, r: RepoId, d: Digest, pushedBefore: nat)
    requires forall t: Tag :: G(r, d, t) in s <==> TagAt(s, r, t) == Some(d)
    ensures Purgeable(s, r, d, pushedBefore) <==> Unneeded(s, r, d, pushedBefore)
  {
    if t: Tag :| TagAt(s, r, t) == Some(d) { assert InRange(G(r, d, t), TagsOf(r, d)); }
    if Exists(s, TagsOf(r, d)) {
      var k :| k in s && InRange(k, TagsOf(r, d));
      assert k == G(r, d, k.tag);
    }
    if p: Digest :| S(r, d, p) in s { assert InRange(S(r, d, p), ParentsOf(r, d)); }
    if Exists(s, ParentsOf(r, d)) {
      var k :| k in s && InRange(k, ParentsOf(r, d));
      assert k == S(r, d, k.parent);
    }
  }

  // --- retired names ----------------------------------------------------

  /** A key of the ranges that make a repository worth keeping. */
  predicate Keeps(k: Key, r: RepoId) {
    && (k.M? || k.P? || k.T? || k.H? || k.J? || k.CountManifest? || k.CountTag? || k.CountRepo?)
    && k.repo == r
  }

  /** The name is known, was interned before the watermark, holds no upload open and keeps nothing. */
  ghost predicate Retirable(s: Data, name: Name, live: set<RepoId>, watermark: RepoId) {
    && N(name) in s && s[N(name)].IdV? && s[N(name)].id < watermark && s[N(name)].id !in live
    && forall k: Key :: k in s ==> !Keeps(k, s[N(name)].id)
  }

  /** Where a key that keeps a repository is probed for. */
  function ProbeOf(k: Key): Range
    requires exists r :: Keeps(k, r)
  {
    match k
    case M(r, _) => ManifestsIn(r) case P(r, _) => MembersIn(r) case T(r, _) => TagsIn(r)
    case H(r, _, _, _) => HistoryIn(r) case J(r, _, _, _) => ManifestHistoryIn(r)
    case CountManifest(r, _, _, _) => CountersIn(ManifestScope, r)
    case CountTag(r, _, _, _) => CountersIn(TagScope, r)
    case _ => CountersIn(RepoScope, k.repo)
  }

  lemma KeptIsProbed(s: Data, r: RepoId, live: set<RepoId>, k: Key)
    requires k in s && Keeps(k, r)
    ensures !RepoIsEmpty(s, r, live)
  {
    assert InRange(k, ProbeOf(k)) && Exists(s, ProbeOf(k));
  }

  lemma EmptyIff(s: Data, r: RepoId, live: set<RepoId>)
    ensures RepoIsEmpty(s, r, live) <==> r !in live && forall k: Key :: k in s ==> !Keeps(k, r)
  {
    forall k: Key | k in s && Keeps(k, r) ensures !RepoIsEmpty(s, r, live) { KeptIsProbed(s, r, live, k); }
    if r !in live && forall k: Key :: k in s ==> !Keeps(k, r) {
      forall k: Key | k in s
        ensures !InRange(k, ManifestsIn(r)) && !InRange(k, MembersIn(r)) && !InRange(k, TagsIn(r)) && !InRange(k, HistoryIn(r))
        ensures !InRange(k, ManifestHistoryIn(r)) && !InRange(k, CountersIn(ManifestScope, r))
        ensures !InRange(k, CountersIn(TagScope, r)) && !InRange(k, CountersIn(RepoScope, r))
      {
        assert !Keeps(k, r);
      }
    }
  }

  lemma RetireIff(s: Data, name: Name, live: set<RepoId>, watermark: RepoId)
    ensures Retire(s, name, live, watermark).Some? <==> Retirable(s, name, live, watermark)
    ensures Retire(s, name, live, watermark).Some? ==>
      IdOf(s, name).Some? && Retire(s, name, live, watermark).value == Effect({N(name), I(IdOf(s, name).value)}, map[])
  {
    if IdOf(s, name).Some? { EmptyIff(s, IdOf(s, name).value, live); }
  }

  // --- purged blobs -----------------------------------------------------

  ghost predicate HasReference(s: Data, b: Digest) { exists r: RepoId, m: Digest :: R(b, r, m) in s }

  lemma ReferencedIff(s: Data, b: Digest)
    ensures Referenced(s, b) <==> HasReference(s, b)
  {
    if Referenced(s, b) {
      var k :| k in s && InRange(k, RefsOf(b));
      assert k == R(b, k.repo, k.manifest);
    }
    if r: RepoId, m: Digest :| R(b, r, m) in s { assert InRange(R(b, r, m), RefsOf(b)); }
  }

  /** A membership nothing in its own repository has followed up since the cutoff. */
  ghost predicate Forgotten(s: Data, r: RepoId, b: Digest, cutoff: nat) {
    P(r, b) in s && s[P(r, b)].MemberV? && s[P(r, b)].addedAt <= cutoff && forall m: Digest :: R(b, r, m) !in s
  }

  lemma StaleIff(s: Data, r: RepoId, b: Digest, cutoff: nat)
    ensures Stale(s, P(r, b), cutoff) <==> Forgotten(s, r, b, cutoff)
  {
    if ReferencedIn(s, b, r) {
      var k :| k in s && InRange(k, RefsIn(b, r));
      assert k == R(b, r, k.manifest);
    }
    if m: Digest :| R(b, r, m) in s { assert InRange(R(b, r, m), RefsIn(b, r)); }
  }

  /** A blob whose mark has stood since the cutoff and that no manifest anywhere references. */
  ghost predicate Collectable(s: Data, b: Digest, cutoff: nat) {
    B(b) in s && C(b) in s && s[C(b)].MarkV? && s[C(b)].seenAt <= cutoff && !HasReference(s, b)
  }

  lemma RipeIff(s: Data, b: Digest, cutoff: nat)
    ensures Ripe(s, b, cutoff) <==> Collectable(s, b, cutoff)
    ensures Collectable(s, b, cutoff) ==> CollectBlob(s, b, cutoff) == Some(Effect({B(b), C(b)}, map[]))
    ensures !Collectable(s, b, cutoff) ==> CollectBlob(s, b, cutoff) == None
  {
    ReferencedIff(s, b);
  }

  /** A cutoff is a whole span before the clock, or the epoch when there is no such time. */
  lemma CutoffIff(now: Millis, span: nat)
    ensures if now < span * 1000 then Ago(now, span) == 0 else (Ago(now, span) + span) * 1000 <= now < (Ago(now, span) + span + 1) * 1000
  {}
}
