/**
 What each step of the purge passes and of the repository sweeper does, key by key: which
 memberships and marks a page moves, which blobs a pass goes on to collect, and what a dropped
 repository's sweep retracts and wipes. Likewise the interning of a name.
 */
module StepAnswers {
  import opened Results
  import opened Paging
  import opened Keys
  import opened Store
  import opened Interner
  import opened Registry
  import opened Invariants
  import opened IndexSteps
  import opened System
  import opened Guards
  import opened Answers

  // --- names ------------------------------------------------------------

  /** A known name keeps its id; a new one takes the counter's value, and the counter moves on by one. */
  ghost predicate InternAnswer(s: Data, s': Data, name: Name, id: Option<RepoId>, k: Key)
    requires id.Some? && id.value != RESERVED_ID
  {
    if N(name) in s then SameKey(s, s', k)
    else if k == N(name) then k in s' && s'[k] == IdV(id.value)
    else if k == I(id.value) then k in s' && s'[k] == NameV(name)
    else if k == I(RESERVED_ID) then k in s' && s'[k] == IdV(id.value + 1)
    else SameKey(s, s', k)
  }

  lemma InternAnswers(s: Data, name: Name)
    requires Bijection(s)
    ensures var (s', id) := Intern(s, name);
      && (id.None? <==> N(name) !in s && I(RESERVED_ID) in s && s[I(RESERVED_ID)] == IdV(RESERVED_ID))
      && (id.None? ==> s' == s)
      && (id.Some? ==> id.value != RESERVED_ID && forall k: Key :: InternAnswer(s, s', name, id, k))
      && (id.Some? && N(name) in s ==> s[N(name)] == IdV(id.value))
      && (id.Some? && N(name) !in s ==> if I(RESERVED_ID) in s then s[I(RESERVED_ID)] == IdV(id.value) else id.value == 0)
  {}

  // --- the membership walk ----------------------------------------------

  /** The page holds a forgotten membership of the blob. */
  ghost predicate Retracted(s: Data, page: Page<Key>, cutoff: nat, b: Digest) {
    exists r: RepoId :: P(r, b) in page.keys && Forgotten(s, r, b, cutoff)
  }

  /** Forgotten memberships go, and with each its blob's mark: the grace period starts over. */
  ghost predicate MemberAnswer(s: Data, s': Data, page: Page<Key>, cutoff: nat, k: Key) {
    match k
    case P(r, b) => if k in page.keys && Forgotten(s, r, b, cutoff) then k !in s' else SameKey(s, s', k)
    case C(b) => if Retracted(s, page, cutoff, b) then k !in s' else SameKey(s, s', k)
    case _ => SameKey(s, s', k)
  }

  lemma MemberPageAnswers(cfg: Config, grace: nat, s: Sys, step: Step, s': Sys)
    requires Next(cfg, grace, s, step, s') && step.MemberPage?
    ensures forall k: Key :: MemberAnswer(s.store, s'.store, step.page, s.pass.value.cutoff, k)
  {
    var store, cutoff := s.store, s.pass.value.cutoff;
    forall k: Key ensures MemberAnswer(store, s'.store, step.page, cutoff, k) {
      PerformAt(store, SweepMembers(store, Elements(step.page.keys), cutoff), k);
      if k.P? { StaleIff(store, k.repo, k.digest, cutoff); }
      if k.C? { RetractedIff(store, step.page, cutoff, k.digest); }
    }
  }

  lemma RetractedIff(s: Data, page: Page<Key>, cutoff: nat, b: Digest)
    ensures C(b) in SweepMembers(s, Elements(page.keys), cutoff).dels <==> Retracted(s, page, cutoff, b)
  {
    if C(b) in SweepMembers(s, Elements(page.keys), cutoff).dels {
      var k :| k in page.keys && Stale(s, k, cutoff) && k.digest == b;
      StaleIff(s, k.repo, b, cutoff);
      assert k == P(k.repo, b);
    }
    if r: RepoId :| P(r, b) in page.keys && Forgotten(s, r, b, cutoff) {
      StaleIff(s, r, b, cutoff);
      assert P(r, b) in Elements(page.keys);
    }
  }

  // --- the blob walk ----------------------------------------------------

  /** A referenced blob of the page loses its mark; an unreferenced one gains one, unless it has one already. */
  ghost predicate BlobAnswer(s: Data, s': Data, page: Page<Key>, now: Millis, k: Key) {
    if k.C? && B(k.digest) in page.keys && HasReference(s, k.digest) then k !in s'
    else if k.C? && B(k.digest) in page.keys && k !in s then k in s' && s'[k].MarkV? && InSeconds(s'[k].seenAt, now)
    else SameKey(s, s', k)
  }

  lemma BlobPageAnswers(cfg: Config, grace: nat, s: Sys, step: Step, s': Sys)
    requires Next(cfg, grace, s, step, s') && step.BlobPage?
    ensures forall k: Key :: BlobAnswer(s.store, s'.store, step.page, s.pass.value.now, k)
    ensures forall b: Digest :: b in s'.pass.value.ripe <==>
      b in s.pass.value.ripe || (B(b) in step.page.keys && Collectable(s.store, b, s.pass.value.cutoff))
  {
    var store, p, page := s.store, s.pass.value, step.page;
    forall k: Key ensures BlobAnswer(store, s'.store, page, p.now, k) {
      PerformAt(store, ScanBlobs(store, BlobsOf(page.keys), p.now), k);
      if k.C? { ReferencedIff(store, k.digest); OnPage(page, k.digest); SecsAreSeconds(p.now); }
    }
    forall b: Digest ensures b in s'.pass.value.ripe <==> b in p.ripe || (B(b) in page.keys && Collectable(store, b, p.cutoff)) {
      RipeIff(store, b, p.cutoff);
      OnPage(page, b);
    }
  }

  lemma OnPage(page: Page<Key>, b: Digest)
    ensures b in BlobsOf(page.keys) <==> B(b) in page.keys
  {
    if b in BlobsOf(page.keys) {
      var k :| k in page.keys && k.B? && k.digest == b;
      assert k == B(b);
    }
    if B(b) in page.keys { assert B(b).B?; }
  }

  /** What is collected is looked at again first: by then it may have been pushed, or retracted. */
  lemma CollectAnswers(cfg: Config, grace: nat, s: Sys, step: Step, s': Sys)
    requires Next(cfg, grace, s, step, s') && step.Collect?
    ensures if Collectable(s.store, step.digest, s.pass.value.cutoff)
      then forall k: Key :: if k == B(step.digest) || k == C(step.digest) then k !in s'.store else SameKey(s.store, s'.store, k)
      else s'.store == s.store
  {
    RipeIff(s.store, step.digest, s.pass.value.cutoff);
    if Collectable(s.store, step.digest, s.pass.value.cutoff) {
      var e := Effect({B(step.digest), C(step.digest)}, map[]);
      forall k: Key ensures if k in e.dels then k !in s'.store else SameKey(s.store, s'.store, k) { PerformAt(s.store, e, k); }
    }
  }

  /** A pass takes its clock once, and its cutoff is the grace period before it. */
  lemma BeginPassAnswers(cfg: Config, grace: nat, s: Sys, step: Step, s': Sys)
    requires Next(cfg, grace, s, step, s') && step.BeginPass?
    ensures s'.store == s.store && s'.sweep == s.sweep && s'.pass.Some? && s'.pass.value.now == step.now
    ensures s'.pass.value.ripe == {} && s'.pass.value.members == At(None) && s'.pass.value.blobs == At(None)
    ensures var cutoff := s'.pass.value.cutoff;
      if step.now < grace * 1000 then cutoff == 0 else InSeconds(cutoff + grace, step.now)
  {
    CutoffIff(step.now, grace);
  }

  // --- dropped repositories ---------------------------------------------

  /** A blob edge of a manifest on the page, by a layer its record lists. */
  ghost predicate EdgeOnPage(s: Data, id: RepoId, page: Page<Key>, k: Key) {
    && k.R? && k.repo == id && M(id, k.manifest) in page.keys
    && M(id, k.manifest) in s && s[M(id, k.manifest)].ManifestV? && k.blob in s[M(id, k.manifest)].layers
  }

  lemma SweepPageAnswers(cfg: Config, grace: nat, s: Sys, step: Step, s': Sys)
    requires Next(cfg, grace, s, step, s') && step.SweepPage?
    ensures forall k: Key ::
      if EdgeOnPage(s.store, s.sweep.value.id, step.page, k) then k !in s'.store else SameKey(s.store, s'.store, k)
  {
    var store, id, page := s.store, s.sweep.value.id, step.page;
    forall k: Key ensures if EdgeOnPage(store, id, page, k) then k !in s'.store else SameKey(store, s'.store, k) {
      PerformAt(store, SweepRefs(store, id, ManifestsOf(page.keys)), k);
      if k.R? && k.repo == id {
        ManifestOnPage(store, id, page, k.manifest);
      }
    }
  }

  lemma ManifestOnPage(s: Data, id: RepoId, page: Page<Key>, d: Digest)
    requires forall k :: k in page.keys ==> InRange(k, ManifestsIn(id))
    ensures d in ManifestsOf(page.keys) <==> M(id, d) in page.keys
  {
    if d in ManifestsOf(page.keys) {
      var k :| k in page.keys && k.M? && k.digest == d;
      assert k == M(id, d);
    }
    if M(id, d) in page.keys { assert M(id, d).M?; }
  }
}
