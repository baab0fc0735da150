/**
 What every registry batch keeps true across the index ranges, stated range by range, and the
 proofs that each batch keeps it.
 */
module Invariants {
  import opened Results
  import opened Keys
  import opened Store
  import opened Interner
  import opened Registry

  // --- the invariants ---------------------------------------------------

  ghost predicate WellTyped(cfg: Config, s: Data) {
    && (forall r: RepoId, t: Tag :: T(r, t) in s ==> s[T(r, t)].TagV?)
    && (forall d: Digest :: C(d) in s ==> s[C(d)].MarkV?)
    && (forall r: RepoId, d: Digest :: P(r, d) in s ==> s[P(r, d)].MemberV?)
    && (forall r: RepoId, d: Digest :: M(r, d) in s ==>
          && s[M(r, d)].ManifestV? && s[M(r, d)].layers == Layers(cfg.doc(d))
          && s[M(r, d)].children == cfg.doc(d).children && s[M(r, d)].subject == cfg.doc(d).subject)
  }

  /** `G` is exactly the reverse of `T`; a manifest has a body; a tag names a stored manifest. */
  ghost predicate TagIndex(s: Data) {
    && (forall r: RepoId, d: Digest, t: Tag :: G(r, d, t) in s <==> TagAt(s, r, t) == Some(d))
    && (forall r: RepoId, d: Digest :: M(r, d) in s <==> Z(r, d) in s)
    && (forall r: RepoId, t: Tag :: T(r, t) in s && s[T(r, t)].TagV? ==> M(r, s[T(r, t)].target) in s)
  }

  ghost predicate NamedByTag(cfg: Config, s: Data, r: RepoId, sub: Digest, f: Digest) {
    exists t: Tag :: TagAt(s, r, t) == Some(f) && cfg.subjectOf(t) == Some(sub)
  }

  /** Every graph edge has both ends it should have, and the manifest at its head says so. */
  ghost predicate EdgesSound(cfg: Config, s: Data) {
    && (forall b: Digest, r: RepoId, m: Digest :: R(b, r, m) in s ==> M(r, m) in s && b in Layers(cfg.doc(m)))
    && (forall r: RepoId, c: Digest, p: Digest :: S(r, c, p) in s ==> M(r, c) in s && M(r, p) in s && c in cfg.doc(p).children)
    && (forall r: RepoId, sub: Digest, f: Digest :: F(r, sub, f) in s ==>
          M(r, f) in s && (cfg.doc(f).subject == Some(sub) || NamedByTag(cfg, s, r, sub, f)))
  }

  /** The two history ranges hold the same events. */
  ghost predicate HistoryPaired(s: Data) {
    forall r: RepoId, t: Tag, at: Millis, d: Digest ::
      (H(r, t, at, d) in s <==> J(r, d, at, t) in s) &&
      (H(r, t, at, d) in s ==> s[H(r, t, at, d)] == s[J(r, d, at, t)] && s[H(r, t, at, d)].EventV?)
  }

  /** Purge's clock never runs on a referenced blob. */
  ghost predicate MarksUnreferenced(s: Data) {
    forall b: Digest, r: RepoId, m: Digest :: R(b, r, m) in s ==> C(b) !in s
  }

  predicate Mentions(k: Key, r: RepoId) {
    KeyedByRepo(k, r) || (k.R? && k.repo == r)
  }

  /** Every key under a repository id belongs to a live name or to an outstanding sweep. */
  ghost predicate NoOrphans(s: Data) {
    && (forall k: Key, r: RepoId :: k in s && Mentions(k, r) ==> I(r) in s || Dead(r) in s)
    && (forall r: RepoId :: Dead(r) in s ==> r < NextId(s) && I(r) !in s)
  }

  ghost predicate Inv(cfg: Config, s: Data) {
    && WellTyped(cfg, s) && TagIndex(s) && EdgesSound(cfg, s) && HistoryPaired(s)
    && MarksUnreferenced(s) && NoOrphans(s) && Bijection(s)
  }

  lemma EmptyStoreIsSound(cfg: Config)
    ensures Inv(cfg, map[])
  {}

  // --- frames -----------------------------------------------------------

  ghost predicate SameKey(s: Data, s': Data, k: Key) {
    (k in s' <==> k in s) && (k in s ==> s'[k] == s[k])
  }

  predicate IndexKey(k: Key) {
    k.M? || k.Z? || k.T? || k.G? || k.R? || k.S? || k.F? || k.H? || k.J?
  }

  /** A batch that leaves the index ranges alone keeps what they say. */
  lemma IndexFrame(cfg: Config, s: Data, s': Data)
    requires forall k: Key :: IndexKey(k) ==> SameKey(s, s', k)
    ensures TagIndex(s) ==> TagIndex(s')
    ensures EdgesSound(cfg, s) ==> EdgesSound(cfg, s')
    ensures HistoryPaired(s) ==> HistoryPaired(s')
  {
    assert forall r: RepoId, d: Digest :: SameKey(s, s', M(r, d)) && SameKey(s, s', Z(r, d));
    assert forall r: RepoId, t: Tag :: SameKey(s, s', T(r, t));
    assert forall r: RepoId, t: Tag :: TagAt(s', r, t) == TagAt(s, r, t);
    assert forall r: RepoId, d: Digest, t: Tag :: SameKey(s, s', G(r, d, t));
    if EdgesSound(cfg, s) { EdgeFrame(cfg, s, s'); }
    if HistoryPaired(s) { HistoryFrame(s, s'); }
  }

  lemma HistoryFrame(s: Data, s': Data)
    requires forall k: Key :: k.H? || k.J? ==> SameKey(s, s', k)
    requires HistoryPaired(s)
    ensures HistoryPaired(s')
  {
    forall r: RepoId, t: Tag, at: Millis, d: Digest
      ensures SameKey(s, s', H(r, t, at, d)) && SameKey(s, s', J(r, d, at, t))
    {}
  }

  lemma EdgeFrame(cfg: Config, s: Data, s': Data)
    requires forall k: Key :: k.R? || k.S? || k.F? || k.M? ==> SameKey(s, s', k)
    requires forall r: RepoId, t: Tag :: TagAt(s', r, t) == TagAt(s, r, t)
    requires EdgesSound(cfg, s)
    ensures EdgesSound(cfg, s')
  {
    assert forall r: RepoId, d: Digest :: SameKey(s, s', M(r, d));
    assert forall b: Digest, r: RepoId, m: Digest :: SameKey(s, s', R(b, r, m));
    assert forall r: RepoId, c: Digest, p: Digest :: SameKey(s, s', S(r, c, p));
    forall r: RepoId, sub: Digest, f: Digest | F(r, sub, f) in s'
      ensures M(r, f) in s' && (cfg.doc(f).subject == Some(sub) || NamedByTag(cfg, s', r, sub, f))
    {
      assert SameKey(s, s', F(r, sub, f));
      if NamedByTag(cfg, s, r, sub, f) {
        var t: Tag :| TagAt(s, r, t) == Some(f) && cfg.subjectOf(t) == Some(sub);
        assert TagAt(s', r, t) == Some(f);
      }
    }
  }

  /** Writing only under live ids, and never dropping a name, orphans nothing. */
  lemma OrphanFrame(s: Data, s': Data)
    requires NoOrphans(s)
    requires forall r: RepoId :: (I(r) in s ==> I(r) in s') && (Dead(r) in s' <==> Dead(r) in s) && (Dead(r) in s ==> I(r) !in s')
    requires NextId(s) <= NextId(s')
    requires forall k: Key, r: RepoId :: k in s' && Mentions(k, r) ==> k in s || I(r) in s' || Dead(r) in s'
    ensures NoOrphans(s')
  {}
}
