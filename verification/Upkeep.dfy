/**
 Blob commits and deletes, the repository drop, retirement, and the purge stages: every batch
 that leaves the tag and manifest indexes alone or removes a repository from them whole.
 */
module Upkeep {
  import opened Results
  import opened Keys
  import opened Store
  import opened Interner
  import opened Registry
  import opened Invariants
  import opened IndexSteps

  /** The index ranges are untouched, except that blob edges may go. */
  ghost predicate Quiet(s: Data, s': Data) {
    && (forall k: Key :: (IndexKey(k) && !k.R?) || k.N? || k.I? || k.Dead? ==> SameKey(s, s', k))
    && (forall b: Digest, r: RepoId, m: Digest :: R(b, r, m) in s' ==> R(b, r, m) in s)
    && (forall d: Digest :: C(d) in s' ==> s'[C(d)].MarkV? && (C(d) in s || !Referenced(s, d)))
    && (forall r: RepoId, d: Digest :: P(r, d) in s' ==> s'[P(r, d)].MemberV?)
    && (forall k: Key, r: RepoId :: k in s' && Mentions(k, r) ==> k in s || I(r) in s || Dead(r) in s)
  }

  lemma QuietKeepsInv(cfg: Config, s: Data, s': Data)
    requires Inv(cfg, s) && Quiet(s, s')
    ensures Inv(cfg, s')
  {
    forall r: RepoId, d: Digest ensures SameKey(s, s', M(r, d)) && SameKey(s, s', Z(r, d)) {}
    forall r: RepoId, t: Tag ensures SameKey(s, s', T(r, t)) && TagAt(s', r, t) == TagAt(s, r, t) {}
    forall r: RepoId, d: Digest, t: Tag ensures SameKey(s, s', G(r, d, t)) {}
    HistoryFrame(s, s');
    NamesFrame(s, s');
    QuietEdges(cfg, s, s');
    forall b: Digest, r: RepoId, m: Digest | R(b, r, m) in s' ensures C(b) !in s' {
      assert R(b, r, m) in s && InRange(R(b, r, m), RefsOf(b));
    }
  }

  lemma QuietEdges(cfg: Config, s: Data, s': Data)
    requires EdgesSound(cfg, s) && Quiet(s, s')
    ensures EdgesSound(cfg, s')
  {
    forall r: RepoId, d: Digest ensures SameKey(s, s', M(r, d)) {}
    forall r: RepoId, c: Digest, p: Digest ensures SameKey(s, s', S(r, c, p)) {}
    forall r: RepoId, sub: Digest, f: Digest | F(r, sub, f) in s'
      ensures M(r, f) in s' && (cfg.doc(f).subject == Some(sub) || NamedByTag(cfg, s', r, sub, f))
    {
      assert SameKey(s, s', F(r, sub, f));
      if NamedByTag(cfg, s, r, sub, f) {
        var t: Tag :| TagAt(s, r, t) == Some(f) && cfg.subjectOf(t) == Some(sub);
        assert SameKey(s, s', T(r, t));
        assert TagAt(s', r, t) == Some(f);
      }
    }
  }

  // --- blobs ------------------------------------------------------------

  lemma CommitIsQuiet(cfg: Config, s: Data, r: RepoId, d: Digest, size: nat, now: Millis)
    requires Inv(cfg, s) && I(r) in s
    ensures Quiet(s, Perform(s, CommitBlob(s, r, d, size, now)))
  {}

  lemma DeleteBlobIsQuiet(cfg: Config, s: Data, r: RepoId, b: Digest)
    requires Inv(cfg, s)
    ensures var e := DeleteBlob(s, r, b); e.Ok? ==> Quiet(s, Perform(s, e.value))
  {}

  lemma SweepRefsIsQuiet(cfg: Config, s: Data, r: RepoId, page: set<Digest>)
    requires Inv(cfg, s)
    ensures Quiet(s, Perform(s, SweepRefs(s, r, page)))
  {
    var e := SweepRefs(s, r, page);
    assert forall k :: k in e.dels ==> k.R?;
  }

  lemma SweepMembersIsQuiet(cfg: Config, s: Data, page: set<Key>, cutoff: nat)
    requires Inv(cfg, s)
    ensures Quiet(s, Perform(s, SweepMembers(s, page, cutoff)))
  {
    assert forall k :: k in SweepMembers(s, page, cutoff).dels ==> k.P? || k.C?;
  }

  lemma MarkingIsQuiet(cfg: Config, s: Data, s': Data)
    requires Inv(cfg, s) && forall k: Key :: !k.C? ==> SameKey(s, s', k)
    requires forall d: Digest :: C(d) in s' ==> s'[C(d)].MarkV? && (C(d) in s || !Referenced(s, d))
    ensures Quiet(s, s')
  {
    forall b: Digest, r: RepoId, m: Digest ensures SameKey(s, s', R(b, r, m)) {}
    forall r: RepoId, d: Digest ensures SameKey(s, s', P(r, d)) {}
    forall k: Key, r: RepoId | k in s' && Mentions(k, r) ensures k in s { assert SameKey(s, s', k); }
  }

  lemma ScanBlobsIsQuiet(cfg: Config, s: Data, page: set<Digest>, now: Millis)
    requires Inv(cfg, s)
    ensures Quiet(s, Perform(s, ScanBlobs(s, page, now)))
  {
    var e := ScanBlobs(s, page, now);
    forall k: Key | !k.C? ensures SameKey(s, Perform(s, e), k) { PerformAt(s, e, k); }
    forall d: Digest | C(d) in Perform(s, e) ensures Perform(s, e)[C(d)].MarkV? && (C(d) in s || !Referenced(s, d)) {
      PerformAt(s, e, C(d));
    }
    MarkingIsQuiet(cfg, s, Perform(s, e));
  }

  lemma CollectIsQuiet(cfg: Config, s: Data, d: Digest, cutoff: nat)
    requires Inv(cfg, s)
    ensures var e := CollectBlob(s, d, cutoff); e.Some? ==> Quiet(s, Perform(s, e.value))
  {}

  // --- names ------------------------------------------------------------

  /** A batch confined to the names and the outstanding sweeps leaves the indexes as they were. */
  lemma OutsideNames(cfg: Config, s: Data, s': Data)
    requires Inv(cfg, s) && forall k: Key :: !k.N? && !k.I? && !k.Dead? ==> SameKey(s, s', k)
    ensures WellTyped(cfg, s') && TagIndex(s') && EdgesSound(cfg, s') && HistoryPaired(s') && MarksUnreferenced(s')
  {
    IndexFrame(cfg, s, s');
    forall x: RepoId, d: Digest ensures SameKey(s, s', M(x, d)) && SameKey(s, s', P(x, d)) {}
    forall d: Digest ensures SameKey(s, s', C(d)) {}
    forall x: RepoId, t: Tag ensures SameKey(s, s', T(x, t)) {}
    forall b: Digest, x: RepoId, m: Digest ensures SameKey(s, s', R(b, x, m)) {}
  }

  lemma InternOrphans(s: Data, s': Data)
    requires NoOrphans(s) && (forall k: Key :: !k.N? && !k.I? ==> SameKey(s, s', k)) && NextId(s) <= NextId(s')
    requires forall r: RepoId :: (I(r) in s ==> I(r) in s') && (I(r) in s' && I(r) !in s ==> r >= NextId(s))
    ensures NoOrphans(s')
  {
    forall r: RepoId ensures SameKey(s, s', Dead(r)) {}
    forall k: Key, r: RepoId | k in s' && Mentions(k, r) ensures k in s { assert SameKey(s, s', k); }
    OrphanFrame(s, s');
  }

  lemma InternKeepsInv(cfg: Config, s: Data, name: Name)
    requires Inv(cfg, s)
    ensures var (s', id) := Intern(s, name); Inv(cfg, s') && (id.Some? ==> I(id.value) in s' && IdOf(s', name) == id)
  {
    var (s', id) := Intern(s, name);
    InternKeepsBijection(s, name);
    forall k: Key | !k.N? && !k.I? ensures SameKey(s, s', k) {}
    OutsideNames(cfg, s, s');
    InternOrphans(s, s');
    assert id.Some? ==> I(id.value) in s' by { if id.Some? { assert N(name) in s'; } }
  }

  /** The id keeps its keys for now, but as an outstanding sweep's and no longer as a name's. */
  lemma TombstoneKeepsInv(cfg: Config, s: Data, name: Name, r: RepoId)
    requires Inv(cfg, s) && IdOf(s, name) == Some(r)
    ensures Inv(cfg, Perform(s, Tombstone(s, name, r)))
  {
    var s' := Perform(s, Tombstone(s, name, r));
    forall k: Key | !k.N? && !k.I? && !k.Dead? ensures SameKey(s, s', k) {}
    OutsideNames(cfg, s, s');
    ReleaseKeepsBijection(s, name, r, s');
    forall x: RepoId | Dead(x) in s' ensures x < NextId(s') && I(x) !in s' {}
    forall k: Key, x: RepoId | k in s' && Mentions(k, x) ensures I(x) in s' || Dead(x) in s' {
      assert SameKey(s, s', k);
    }
  }

  predicate Unreferencing(s: Data, r: RepoId) {
    forall k :: k in s && k.R? ==> k.repo != r
  }

  /** Once its blob edges are gone, dropping the id's ranges removes both ends of everything. */
  lemma FinishKeepsInv(cfg: Config, s: Data, r: RepoId)
    requires Inv(cfg, s) && Unreferencing(s, r)
    requires I(r) !in s
    ensures Inv(cfg, FinishSweep(s, r))
    ensures forall k: Key :: k in FinishSweep(s, r) ==> !Mentions(k, r)
    ensures forall k: Key :: !Mentions(k, r) && k != Dead(r) ==> SameKey(s, FinishSweep(s, r), k)
  {
    var s' := FinishSweep(s, r);
    forall k: Key | !Mentions(k, r) && k != Dead(r) ensures SameKey(s, s', k) {}
    FinishTags(cfg, s, r);
    FinishEdges(cfg, s, r);
    FinishNames(s, s', r);
  }

  lemma FinishNames(s: Data, s': Data, r: RepoId)
    requires Bijection(s) && NoOrphans(s)
    requires forall k: Key :: !Mentions(k, r) && k != Dead(r) ==> SameKey(s, s', k)
    requires Dead(r) !in s' && forall k: Key :: k in s' ==> !Mentions(k, r)
    ensures Bijection(s') && NoOrphans(s')
  {
    forall n: Name ensures SameKey(s, s', N(n)) {}
    forall x: RepoId ensures SameKey(s, s', I(x)) && (x != r ==> SameKey(s, s', Dead(x))) {}
    forall k: Key, x: RepoId | k in s' && Mentions(k, x) ensures I(x) in s' || Dead(x) in s' {
      assert x != r && SameKey(s, s', k);
    }
  }

  lemma FinishTags(cfg: Config, s: Data, r: RepoId)
    requires TagIndex(s) && HistoryPaired(s) && WellTyped(cfg, s)
    ensures TagIndex(FinishSweep(s, r)) && HistoryPaired(FinishSweep(s, r)) && WellTyped(cfg, FinishSweep(s, r))
    ensures forall x: RepoId, t: Tag :: TagAt(FinishSweep(s, r), x, t) == if x == r then None else TagAt(s, x, t)
  {
    var s' := FinishSweep(s, r);
    forall x: RepoId, t: Tag ensures T(x, t) in s' <==> T(x, t) in s && x != r {}
    forall x: RepoId, d: Digest ensures (M(x, d) in s' <==> M(x, d) in s && x != r) && (Z(x, d) in s' <==> Z(x, d) in s && x != r) {}
    forall x: RepoId, d: Digest, t: Tag ensures G(x, d, t) in s' <==> G(x, d, t) in s && x != r {}
    forall x: RepoId, t: Tag, at: Millis, d: Digest
      ensures (H(x, t, at, d) in s' <==> H(x, t, at, d) in s && x != r) && (J(x, d, at, t) in s' <==> J(x, d, at, t) in s && x != r) {}
  }

  lemma FinishEdges(cfg: Config, s: Data, r: RepoId)
    requires Inv(cfg, s) && Unreferencing(s, r)
    ensures EdgesSound(cfg, FinishSweep(s, r)) && MarksUnreferenced(FinishSweep(s, r))
  {
    var s' := FinishSweep(s, r);
    FinishTags(cfg, s, r);
    forall x: RepoId, d: Digest ensures M(x, d) in s' <==> M(x, d) in s && x != r {}
    forall x: RepoId, sub: Digest, f: Digest | F(x, sub, f) in s'
      ensures M(x, f) in s' && (cfg.doc(f).subject == Some(sub) || NamedByTag(cfg, s', x, sub, f))
    {
      assert x != r;
      if NamedByTag(cfg, s, x, sub, f) {
        var t: Tag :| TagAt(s, x, t) == Some(f) && cfg.subjectOf(t) == Some(sub);
        assert TagAt(s', x, t) == Some(f);
      }
    }
  }

  // --- retirement -------------------------------------------------------

  /**
   Eight probes see `M P T H J A`; the index invariants carry the answer to the ranges nobody
   probed. An empty name has no body, no reverse tag, and no edge of any kind.
   */
  lemma EmptyMeansUnmentioned(cfg: Config, s: Data, r: RepoId, live: set<RepoId>)
    requires Inv(cfg, s) && RepoIsEmpty(s, r, live)
    ensures forall k: Key :: k in s ==> !Mentions(k, r)
  {
    forall k: Key | k in s ensures !Mentions(k, r) {
      if k.M? { assert k.repo == r ==> InRange(k, ManifestsIn(r)); }
      else if k.Z? { assert M(k.repo, k.digest) in s && InRange(M(k.repo, k.digest), ManifestsIn(k.repo)); }
      else if k.T? { assert k.repo == r ==> InRange(k, TagsIn(r)); }
      else if k.G? { assert TagAt(s, k.repo, k.tag) == Some(k.digest) && InRange(T(k.repo, k.tag), TagsIn(k.repo)); }
      else if k.P? { assert k.repo == r ==> InRange(k, MembersIn(r)); }
      else if k.R? { assert M(k.repo, k.manifest) in s && InRange(M(k.repo, k.manifest), ManifestsIn(k.repo)); }
      else if k.S? { assert M(k.repo, k.child) in s && InRange(M(k.repo, k.child), ManifestsIn(k.repo)); }
      else if k.F? { assert M(k.repo, k.referrer) in s && InRange(M(k.repo, k.referrer), ManifestsIn(k.repo)); }
      else if k.H? { assert k.repo == r ==> InRange(k, HistoryIn(r)); }
      else if k.J? { assert k.repo == r ==> InRange(k, ManifestHistoryIn(r)); }
      else if k.CountManifest? { assert k.repo == r ==> InRange(k, CountersIn(ManifestScope, r)); }
      else if k.CountTag? { assert k.repo == r ==> InRange(k, CountersIn(TagScope, r)); }
      else if k.CountRepo? { assert k.repo == r ==> InRange(k, CountersIn(RepoScope, r)); }
    }
  }

  lemma RetireKeepsInv(cfg: Config, s: Data, name: Name, live: set<RepoId>, watermark: RepoId)
    requires Inv(cfg, s)
    ensures var e := Retire(s, name, live, watermark); e.Some? ==> Inv(cfg, Perform(s, e.value))
    ensures Retire(s, name, live, watermark).Some? ==> forall k: Key :: k in s ==> !Mentions(k, IdOf(s, name).value)
  {
    var e := Retire(s, name, live, watermark);
    if e.Some? {
      var r := IdOf(s, name).value;
      EmptyMeansUnmentioned(cfg, s, r, live);
      var s' := Perform(s, e.value);
      forall k: Key | !k.N? && !k.I? ensures SameKey(s, s', k) {}
      OutsideNames(cfg, s, s');
      ReleaseKeepsBijection(s, name, r, s');
      forall x: RepoId ensures SameKey(s, s', Dead(x)) {}
      forall k: Key, x: RepoId | k in s' && Mentions(k, x) ensures I(x) in s' || Dead(x) in s' {
        assert SameKey(s, s', k) && x != r;
        assert SameKey(s, s', I(x)) || I(x) == I(r);
      }
    }
  }
}
