/**
 The registry as one state machine: client and maintenance calls, the repository sweeper, and
 purge passes that walk the membership and blob ranges page by page, in any interleaving and with
 a crash possible anywhere. Clocks are unconstrained: any call may carry any instant.
 */
module System {
  import opened Results
  import opened Paging
  import opened Keys
  import opened Store
  import opened Interner
  import opened Registry
  import opened Invariants
  import opened IndexSteps
  import opened Retractions
  import opened Upkeep
  import opened Requests

  /**
   A purge pass: its clock and cutoff, the two walks, the ripe candidates still to collect, and
   which blobs this pass itself has marked.
   */
  datatype Pass = Pass(now: Millis, cutoff: nat, members: Walk<Key>, blobs: Walk<Key>, ripe: set<Digest>, marked: set<Digest>)

  datatype Sweep = Sweep(id: RepoId, walk: Walk<Key>)

  datatype Sys = Sys(store: Data, pass: Option<Pass>, sweep: Option<Sweep>)

  datatype Step =
    | Call(req: Request)
    | BeginPass(now: Millis)
    | MemberPage(limit: nat, page: Page<Key>)
    | BlobPage(limit: nat, page: Page<Key>)
    | Collect(digest: Digest)
    | EndPass
    | BeginSweep(id: RepoId)
    | SweepPage(limit: nat, page: Page<Key>)
    | FinishRepo
    | Crash

  /** Memberships one page of the sweep retracts. */
  predicate Retracts(s: Data, page: Page<Key>, cutoff: nat, d: Digest) {
    exists k :: k in page.keys && Stale(s, k, cutoff) && k.digest == d
  }

  ghost predicate Next(cfg: Config, grace: nat, s: Sys, step: Step, s': Sys) {
    match step
    case Call(req) => s' == s.(store := Serve(cfg, s.store, req))
    case BeginPass(now) =>
      s.pass.None? && s' == s.(pass := Some(Pass(now, Ago(now, grace), At(None), At(None), {}, {})))
    case MemberPage(limit, page) =>
      && s.pass.Some? && s.pass.value.members.At?
      && IsPage(Before, Pool(s.store, Members), s.pass.value.members.cursor, limit, page)
      && s' == s.(store := Perform(s.store, SweepMembers(s.store, Elements(page.keys), s.pass.value.cutoff)),
                  pass := Some(s.pass.value.(members := Resume(page))))
    case BlobPage(limit, page) =>
      && s.pass.Some? && s.pass.value.members.Done? && s.pass.value.blobs.At?
      && IsPage(Before, Pool(s.store, Blobs), s.pass.value.blobs.cursor, limit, page)
      && var p := s.pass.value;
      s' == s.(store := Perform(s.store, ScanBlobs(s.store, BlobsOf(page.keys), p.now)),
               pass := Some(p.(blobs := Resume(page),
                               ripe := p.ripe + RipeIn(s.store, BlobsOf(page.keys), p.cutoff),
                               marked := p.marked + MarkedBy(s.store, BlobsOf(page.keys)))))
    case Collect(d) =>
      && s.pass.Some? && d in s.pass.value.ripe
      && var p := s.pass.value;
      s' == s.(store := match CollectBlob(s.store, d, p.cutoff) case Some(e) => Perform(s.store, e) case None => s.store,
               pass := Some(p.(ripe := p.ripe - {d})))
    case EndPass => s' == s.(pass := None)
    case BeginSweep(id) => s.sweep.None? && Dead(id) in s.store && s' == s.(sweep := Some(Sweep(id, At(None))))
    case SweepPage(limit, page) =>
      && s.sweep.Some? && s.sweep.value.walk.At?
      && IsPage(Before, Pool(s.store, ManifestsIn(s.sweep.value.id)), s.sweep.value.walk.cursor, limit, page)
      && s' == s.(store := Perform(s.store, SweepRefs(s.store, s.sweep.value.id, ManifestsOf(page.keys))),
                  sweep := Some(s.sweep.value.(walk := Resume(page))))
    case FinishRepo =>
      && s.sweep.Some? && s.sweep.value.walk.Done?
      && s' == s.(store := FinishSweep(s.store, s.sweep.value.id), sweep := None)
    case Crash => s' == s.(pass := None, sweep := None)
  }

  // --- the invariant ----------------------------------------------------

  /**
   Behind the membership walk, an old membership of a marked blob can only be of a blob this very
   pass marked; and no blob is both marked and found ripe in one pass, because the walk meets
   each blob once.
   */
  ghost predicate PassInv(s: Data, p: Pass) {
    && (forall d: Digest :: d in p.ripe || d in p.marked ==> Passed(Before, p.blobs, B(d)) && p.members.Done?)
    && p.ripe !! p.marked
    && (forall r: RepoId, d: Digest ::
          P(r, d) in s && s[P(r, d)].MemberV? && s[P(r, d)].addedAt <= p.cutoff && Passed(Before, p.members, P(r, d)) && C(d) in s
          ==> d in p.marked)
  }

  /** Behind the sweep's cursor no manifest of the dead repository has a blob edge left. */
  ghost predicate SweepInv(s: Data, w: Sweep) {
    && Dead(w.id) in s
    && (forall b: Digest, m: Digest :: R(b, w.id, m) in s ==> !Passed(Before, w.walk, M(w.id, m)))
  }

  ghost predicate SysInv(cfg: Config, s: Sys) {
    && Inv(cfg, s.store)
    && (s.pass.Some? ==> PassInv(s.store, s.pass.value))
    && (s.sweep.Some? ==> SweepInv(s.store, s.sweep.value))
  }

  // --- what calls do to names and edges ---------------------------------

  ghost predicate NameKey(k: Key) { k.N? || k.I? || k.Dead? }

  /** No batch but a drop's or a retirement's touches the names, and none removes a blob's record. */
  ghost predicate LeavesNames(s: Data, s': Data) {
    (forall k: Key :: NameKey(k) ==> SameKey(s, s', k)) && (forall d: Digest :: B(d) in s ==> B(d) in s')
  }

  lemma EffectLeavesNames(s: Data, e: Effect)
    requires (forall k :: k in e.dels ==> !NameKey(k) && !k.B?) && (forall k :: k in e.puts ==> !NameKey(k))
    ensures var kept := LeavesNames(s, Perform(s, e)); kept
  {
    forall k: Key | NameKey(k) ensures SameKey(s, Perform(s, e), k) { PerformAt(s, e, k); }
    forall d: Digest | B(d) in s ensures B(d) in Perform(s, e) { PerformAt(s, e, B(d)); }
  }

  lemma TagPlanLeavesNames(cfg: Config, s: Data, r: RepoId, req: Request)
    requires (req.Retag? || req.Untag?) && Plan(cfg, s, r, req).Some?
    ensures var kept := LeavesNames(s, Perform(s, Plan(cfg, s, r, req).value)); kept
  {
    EffectLeavesNames(s, Plan(cfg, s, r, req).value);
  }

  lemma DeletePlanLeavesNames(cfg: Config, s: Data, r: RepoId, d: Digest, now: Millis)
    ensures var e := DeleteManifest(cfg, s, r, d, now); e.Ok? ==> LeavesNames(s, Perform(s, e.value))
  {
    var e := DeleteManifest(cfg, s, r, d, now);
    if e.Ok? {
      var tags := TagsPointingAt(s, r, d);
      forall k: Key ensures (k in e.value.dels ==> !NameKey(k) && !k.B?) && (k in e.value.puts ==> !NameKey(k)) {
        DeleteManifestDelsAt(cfg, s, r, d, s[M(r, d)], tags, k);
        TagEventsAt(r, tags, d, now, Deleted, k);
        TagDropsAt(cfg, r, tags, d, k);
      }
      EffectLeavesNames(s, e.value);
    }
  }

  lemma BlobPlanLeavesNames(cfg: Config, s: Data, r: RepoId, req: Request)
    requires BlobCall(req) && Plan(cfg, s, r, req).Some?
    ensures var kept := LeavesNames(s, Perform(s, Plan(cfg, s, r, req).value)); kept
  {
    EffectLeavesNames(s, Plan(cfg, s, r, req).value);
  }

  lemma OtherPlanLeavesNames(cfg: Config, s: Data, r: RepoId, req: Request)
    requires Elsewhere(req) && !req.DropRepo? && !req.RetireRepo? && Plan(cfg, s, r, req).Some?
    ensures var kept := LeavesNames(s, Perform(s, Plan(cfg, s, r, req).value)); kept
  {
    EffectLeavesNames(s, Plan(cfg, s, r, req).value);
  }

  lemma PushLeavesNames(cfg: Config, s: Data, s': Data, r: RepoId, d: Digest, tags: set<Tag>, now: Millis)
    requires var pushed := Pushed(cfg, s, s', r, d, tags, now); pushed
    ensures var kept := LeavesNames(s, s'); kept
  {
    forall b: Digest ensures SameKey(s, s', B(b)) {}
  }

  lemma PlanLeavesNames(cfg: Config, s: Data, r: RepoId, req: Request)
    requires Plan(cfg, s, r, req).Some? && !req.DropRepo? && !req.RetireRepo?
    ensures var kept := LeavesNames(s, Perform(s, Plan(cfg, s, r, req).value)); kept
  {
    if req.PutManifest? {
      PushPlanIsPushed(cfg, s, r, req);
      PushLeavesNames(cfg, s, Perform(s, Plan(cfg, s, r, req).value), r, req.digest, Elements(req.tags), req.now);
    }
    else if req.Retag? || req.Untag? { TagPlanLeavesNames(cfg, s, r, req); }
    else if req.RemoveManifest? || req.PurgeManifest? { DeletePlanLeavesNames(cfg, s, r, req.digest, req.now); }
    else if BlobCall(req) { BlobPlanLeavesNames(cfg, s, r, req); }
    else { OtherPlanLeavesNames(cfg, s, r, req); }
  }

  // --- ids --------------------------------------------------------------

  /** At most one id is handed out, the next one, and it is then in use. */
  ghost predicate IssuesInOrder(s: Data, s': Data) {
    NextId(s') == NextId(s) || (NextId(s) != RESERVED_ID && NextId(s') == NextId(s) + 1 && I(NextId(s)) in s')
  }

  lemma ArrivalIssues(s: Data, req: Request)
    ensures IssuesInOrder(s, Arrive(s, req).0)
  {}

  lemma ReleaseIssuesNothing(s: Data, name: Name, r: RepoId, e: Effect)
    requires Bijection(s) && IdOf(s, name) == Some(r)
    requires e.dels == {N(name), I(r)} && forall k :: k in e.puts ==> k == Dead(r)
    ensures NextId(Perform(s, e)) == NextId(s)
  {
    assert N(name) in s && r != RESERVED_ID;
    PerformAt(s, e, I(RESERVED_ID));
  }

  lemma PlanIssuesNothing(cfg: Config, s: Data, r: RepoId, req: Request)
    requires Bijection(s) && Plan(cfg, s, r, req).Some?
    requires req.SaveUpload? || req.EndUpload? || IdOf(s, req.repo) == Some(r)
    ensures NextId(Perform(s, Plan(cfg, s, r, req).value)) == NextId(s)
    ensures !req.DropRepo? && !req.RetireRepo? ==> forall id: RepoId :: SameKey(s, Perform(s, Plan(cfg, s, r, req).value), I(id))
  {
    if req.DropRepo? || req.RetireRepo? {
      ReleaseIssuesNothing(s, req.repo, r, Plan(cfg, s, r, req).value);
    } else {
      PlanLeavesNames(cfg, s, r, req);
      assert SameKey(s, Perform(s, Plan(cfg, s, r, req).value), I(RESERVED_ID));
    }
  }

  lemma ServeIssues(cfg: Config, s: Data, req: Request)
    requires Inv(cfg, s)
    ensures IssuesInOrder(s, Serve(cfg, s, req))
  {
    ArriveKeepsInv(cfg, s, req);
    ArrivalIssues(s, req);
    if Batch(cfg, s, req).Some? {
      PlanIssuesNothing(cfg, Arrive(s, req).0, Arrive(s, req).1.value, req);
    }
  }

  /** A batch that adds no blob edge or id, removes no sweep record, and removes at most its own id. */
  ghost predicate Tame(e: Effect, r: RepoId) {
    && (forall k :: k in e.puts ==> !k.R? && !k.I? && (k.Dead? ==> k.repo == r))
    && (forall k :: k in e.dels ==> !k.Dead? && (k.I? ==> k.repo == r))
  }

  lemma TagPlansAreTame(cfg: Config, s: Data, r: RepoId, req: Request)
    requires (req.Retag? || req.Untag?) && Plan(cfg, s, r, req).Some?
    ensures Tame(Plan(cfg, s, r, req).value, r)
  {}

  lemma DeletesAreTame(cfg: Config, s: Data, r: RepoId, d: Digest, now: Millis)
    ensures var e := DeleteManifest(cfg, s, r, d, now); e.Ok? ==> Tame(e.value, r)
  {
    var e := DeleteManifest(cfg, s, r, d, now);
    if e.Ok? {
      var tags := TagsPointingAt(s, r, d);
      forall k: Key ensures (k in e.value.puts ==> !k.R? && !k.I? && !k.Dead?) && (k in e.value.dels ==> !k.Dead? && !k.I?) {
        DeleteManifestDelsAt(cfg, s, r, d, s[M(r, d)], tags, k);
        TagEventsAt(r, tags, d, now, Deleted, k);
        TagDropsAt(cfg, r, tags, d, k);
      }
    }
  }

  lemma BlobPlansAreTame(cfg: Config, s: Data, r: RepoId, req: Request)
    requires (req.Commit? || req.Mount? || req.RemoveBlob?) && Plan(cfg, s, r, req).Some?
    ensures Tame(Plan(cfg, s, r, req).value, r)
  {}

  lemma NamePlansAreTame(cfg: Config, s: Data, r: RepoId, req: Request)
    requires Elsewhere(req) && Plan(cfg, s, r, req).Some?
    requires req.RetireRepo? ==> IdOf(s, req.repo) == Some(r)
    ensures Tame(Plan(cfg, s, r, req).value, r)
  {}

  ghost predicate NamesKept(s: Data, s': Data, r: RepoId) {
    && (forall k: Key :: k in s' && (k.R? || k.I? || k.Dead?) ==> k in s || (!k.I? && k.repo == r))
    && (forall k: Key :: k in s && (k.Dead? || (k.I? && k.repo != r)) ==> k in s' && (k.I? ==> s'[k] == s[k]))
  }

  lemma TameKeepsNames(s: Data, e: Effect, r: RepoId)
    requires Tame(e, r)
    ensures NamesKept(s, Perform(s, e), r)
  {}

  lemma PlanKeepsNames(cfg: Config, s: Data, r: RepoId, req: Request)
    requires Plan(cfg, s, r, req).Some? && (req.RetireRepo? ==> IdOf(s, req.repo) == Some(r))
    ensures NamesKept(s, Perform(s, Plan(cfg, s, r, req).value), r)
  {
    if req.PutManifest? {
      PushPlanIsPushed(cfg, s, r, req);
      PushedKeepsNames(cfg, s, Perform(s, Plan(cfg, s, r, req).value), r, req.digest, Elements(req.tags), req.now);
    } else {
      if req.Retag? || req.Untag? { TagPlansAreTame(cfg, s, r, req); }
      else if req.RemoveManifest? || req.PurgeManifest? { DeletesAreTame(cfg, s, r, req.digest, req.now); }
      else if req.Commit? || req.Mount? || req.RemoveBlob? { BlobPlansAreTame(cfg, s, r, req); }
      else { NamePlansAreTame(cfg, s, r, req); }
      TameKeepsNames(s, Plan(cfg, s, r, req).value, r);
    }
  }

  lemma PushedKeepsNames(cfg: Config, s: Data, s': Data, r: RepoId, d: Digest, tags: set<Tag>, now: Millis)
    requires Pushed(cfg, s, s', r, d, tags, now)
    ensures NamesKept(s, s', r)
  {
    forall k: Key | k.I? || k.Dead? ensures SameKey(s, s', k) {}
  }

  /** Only new ids are handed out, no outstanding sweep is forgotten, and a dead id gains no edge. */
  ghost predicate NamesAdvance(s: Data, s': Data) {
    && NextId(s) <= NextId(s')
    && (forall id: RepoId :: I(id) in s' ==> I(id) in s || id >= NextId(s))
    && (forall id: RepoId :: Dead(id) in s ==> Dead(id) in s')
    && (forall id: RepoId :: Dead(id) in s' ==> Dead(id) in s || I(id) in s || id >= NextId(s))
    && (forall b: Digest, id: RepoId, m: Digest :: R(b, id, m) in s' && Dead(id) in s ==> R(b, id, m) in s)
  }

  lemma AdvanceTwice(s: Data, s1: Data, s2: Data)
    requires NamesAdvance(s, s1) && NamesAdvance(s1, s2)
    ensures NamesAdvance(s, s2)
  {}

  lemma ArriveAdvances(cfg: Config, s: Data, req: Request)
    requires Inv(cfg, s)
    ensures NamesAdvance(s, Arrive(s, req).0)
  {
    if Interns(req) { InternKeepsBijection(s, req.repo); }
  }

  lemma SessionAdvances(cfg: Config, s: Data, req: Request)
    requires req.SaveUpload? || req.EndUpload?
    ensures NamesAdvance(s, Serve(cfg, s, req))
  {}

  lemma OwnNamesOnly(cfg: Config, s: Data, s': Data, r: RepoId)
    requires Inv(cfg, s) && I(r) in s && r != RESERVED_ID && NamesKept(s, s', r)
    ensures NamesAdvance(s, s')
  {
    assert I(RESERVED_ID) in s <==> I(RESERVED_ID) in s';
    forall b: Digest, id: RepoId, m: Digest | R(b, id, m) in s' && Dead(id) in s ensures R(b, id, m) in s {
      assert id != r;
    }
  }

  lemma PlanAdvances(cfg: Config, s: Data, r: RepoId, req: Request)
    requires Inv(cfg, s) && Plan(cfg, s, r, req).Some? && !req.SaveUpload? && !req.EndUpload?
    requires I(r) in s && IdOf(s, req.repo) == Some(r)
    ensures NamesAdvance(s, Perform(s, Plan(cfg, s, r, req).value))
  {
    PlanKeepsNames(cfg, s, r, req);
    assert N(req.repo) in s;
    OwnNamesOnly(cfg, s, Perform(s, Plan(cfg, s, r, req).value), r);
  }

  lemma ServeAdvances(cfg: Config, s: Data, req: Request)
    requires Inv(cfg, s)
    ensures NamesAdvance(s, Serve(cfg, s, req))
  {
    ArriveKeepsInv(cfg, s, req);
    ArriveAdvances(cfg, s, req);
    if req.SaveUpload? || req.EndUpload? {
      SessionAdvances(cfg, s, req);
    } else if Batch(cfg, s, req).Some? {
      PlanAdvances(cfg, Arrive(s, req).0, Arrive(s, req).1.value, req);
      AdvanceTwice(s, Arrive(s, req).0, Serve(cfg, s, req));
    }
  }

  // --- every step keeps the invariant -----------------------------------

  /** Nothing here places a mark, or writes a membership of a blob that keeps one. */
  ghost predicate NoNewMarks(s: Data, s': Data) {
    forall d: Digest :: C(d) in s' ==>
      && C(d) in s && s'[C(d)] == s[C(d)]
      && (forall r: RepoId :: P(r, d) in s' ==> P(r, d) in s && s'[P(r, d)] == s[P(r, d)])
  }

  lemma PassFrame(s: Data, s': Data, p: Pass)
    requires PassInv(s, p) && NoNewMarks(s, s')
    ensures PassInv(s', p)
  {}

  lemma ServeMarksNothing(cfg: Config, s: Data, req: Request)
    ensures NoNewMarks(s, Serve(cfg, s, req))
  {
    var s' := Serve(cfg, s, req);
    forall d: Digest | C(d) in s'
      ensures C(d) in s && s'[C(d)] == s[C(d)]
      ensures forall r: RepoId :: P(r, d) in s' ==> P(r, d) in s && s'[P(r, d)] == s[P(r, d)]
    {
      ServeIsClockSafe(cfg, s, req, d);
      forall r: RepoId | P(r, d) in s' ensures P(r, d) in s && s'[P(r, d)] == s[P(r, d)] {
        assert SameKey(s, s', P(r, d));
      }
    }
  }

  lemma SweepFrame(s: Data, s': Data, w: Sweep)
    requires SweepInv(s, w) && Dead(w.id) in s'
    requires forall b: Digest, m: Digest :: R(b, w.id, m) in s' ==> R(b, w.id, m) in s
    ensures SweepInv(s', w)
  {}

  lemma MemberPageKeepsPass(cfg: Config, s: Data, p: Pass, limit: nat, page: Page<Key>)
    requires Inv(cfg, s) && PassInv(s, p) && p.members.At?
    requires IsPage(Before, Pool(s, Members), p.members.cursor, limit, page)
    ensures PassInv(Perform(s, SweepMembers(s, Elements(page.keys), p.cutoff)), p.(members := Resume(page)))
  {
    var s' := Perform(s, SweepMembers(s, Elements(page.keys), p.cutoff));
    KeysAreOrdered();
    forall r: RepoId, d: Digest
      | P(r, d) in s' && s'[P(r, d)].MemberV? && s'[P(r, d)].addedAt <= p.cutoff && Passed(Before, Resume(page), P(r, d))
      ensures C(d) in s' ==> d in p.marked
    {
      PageCovers(Before, Pool(s, Members), p.members, limit, page, P(r, d));
      assert P(r, d) in s && s'[P(r, d)] == s[P(r, d)];
      if P(r, d) in page.keys { SparedIsReferenced(s, page, p.cutoff, r, d); }
    }
  }

  /** A page spares an old membership only for a reference, and then there is no mark. */
  lemma SparedIsReferenced(s: Data, page: Page<Key>, cutoff: nat, r: RepoId, d: Digest)
    requires MarksUnreferenced(s) && P(r, d) in page.keys
    requires P(r, d) in Perform(s, SweepMembers(s, Elements(page.keys), cutoff))
    requires P(r, d) in s && s[P(r, d)].MemberV? && s[P(r, d)].addedAt <= cutoff
    ensures C(d) !in s
  {
    assert !Stale(s, P(r, d), cutoff);
    assert ReferencedIn(s, d, r);
  }

  lemma BlobPageKeepsPass(cfg: Config, s: Data, p: Pass, limit: nat, page: Page<Key>)
    requires Inv(cfg, s) && PassInv(s, p) && p.members.Done? && p.blobs.At?
    requires IsPage(Before, Pool(s, Blobs), p.blobs.cursor, limit, page)
    ensures PassInv(Perform(s, ScanBlobs(s, BlobsOf(page.keys), p.now)),
                    p.(blobs := Resume(page), ripe := p.ripe + RipeIn(s, BlobsOf(page.keys), p.cutoff),
                       marked := p.marked + MarkedBy(s, BlobsOf(page.keys))))
  {
    var s' := Perform(s, ScanBlobs(s, BlobsOf(page.keys), p.now));
    KeysAreOrdered();
    forall d: Digest ensures d in BlobsOf(page.keys) ==> Passed(Before, Resume(page), B(d)) && !Passed(Before, p.blobs, B(d))
      ensures Passed(Before, p.blobs, B(d)) ==> Passed(Before, Resume(page), B(d))
    {
      PageCovers(Before, Pool(s, Blobs), p.blobs, limit, page, B(d));
    }
    forall d: Digest | C(d) in s' ensures C(d) in s || d in MarkedBy(s, BlobsOf(page.keys)) {}
    forall r: RepoId, d: Digest ensures SameKey(s, s', P(r, d)) {}
    assert (p.ripe + RipeIn(s, BlobsOf(page.keys), p.cutoff)) !! (p.marked + MarkedBy(s, BlobsOf(page.keys)));
  }

  lemma CollectMarksNothing(s: Data, d: Digest, cutoff: nat)
    ensures var e := CollectBlob(s, d, cutoff); e.Some? ==> NoNewMarks(s, Perform(s, e.value))
  {}

  lemma SweepRefsMarksNothing(s: Data, id: RepoId, page: set<Digest>)
    ensures NoNewMarks(s, Perform(s, SweepRefs(s, id, page)))
  {
    assert forall k :: k in SweepRefs(s, id, page).dels ==> k.R?;
  }

  lemma FinishMarksNothing(s: Data, id: RepoId)
    ensures NoNewMarks(s, FinishSweep(s, id))
  {}

  lemma InPage(page: Page<Key>, r: RepoId, m: Digest)
    ensures M(r, m) in page.keys ==> m in ManifestsOf(page.keys)
  {
    if M(r, m) in page.keys { assert M(r, m).digest in ManifestsOf(page.keys); }
  }

  lemma SweepPageKeepsSweep(cfg: Config, s: Data, w: Sweep, limit: nat, page: Page<Key>)
    requires Inv(cfg, s) && SweepInv(s, w) && w.walk.At?
    requires IsPage(Before, Pool(s, ManifestsIn(w.id)), w.walk.cursor, limit, page)
    ensures SweepInv(Perform(s, SweepRefs(s, w.id, ManifestsOf(page.keys))), w.(walk := Resume(page)))
  {
    var e := SweepRefs(s, w.id, ManifestsOf(page.keys));
    var s' := Perform(s, e);
    assert forall k :: k in e.dels ==> k.R?;
    KeysAreOrdered();
    forall b: Digest, m: Digest | R(b, w.id, m) in s' ensures !Passed(Before, Resume(page), M(w.id, m)) {
      assert M(w.id, m) in s && b in s[M(w.id, m)].layers;
      PageCovers(Before, Pool(s, ManifestsIn(w.id)), w.walk, limit, page, M(w.id, m));
      InPage(page, w.id, m);
      assert m in ManifestsOf(page.keys) ==> R(b, w.id, m) in e.dels;
    }
  }

  lemma StepKeepsStore(cfg: Config, grace: nat, s: Sys, step: Step, s': Sys)
    requires SysInv(cfg, s) && Next(cfg, grace, s, step, s')
    ensures Inv(cfg, s'.store)
  {
    match step {
      case Call(req) => ServeKeepsInv(cfg, s.store, req);
      case MemberPage(limit, page) =>
        SweepMembersIsQuiet(cfg, s.store, Elements(page.keys), s.pass.value.cutoff);
        QuietKeepsInv(cfg, s.store, s'.store);
      case BlobPage(limit, page) =>
        ScanBlobsIsQuiet(cfg, s.store, BlobsOf(page.keys), s.pass.value.now);
        QuietKeepsInv(cfg, s.store, s'.store);
      case Collect(d) =>
        CollectIsQuiet(cfg, s.store, d, s.pass.value.cutoff);
        if CollectBlob(s.store, d, s.pass.value.cutoff).Some? { QuietKeepsInv(cfg, s.store, s'.store); }
      case SweepPage(limit, page) =>
        SweepRefsIsQuiet(cfg, s.store, s.sweep.value.id, ManifestsOf(page.keys));
        QuietKeepsInv(cfg, s.store, s'.store);
      case FinishRepo => FinishKeepsInv(cfg, s.store, s.sweep.value.id);
      case _ =>
    }
  }

  lemma StepKeepsPass(cfg: Config, grace: nat, s: Sys, step: Step, s': Sys)
    requires SysInv(cfg, s) && Next(cfg, grace, s, step, s')
    ensures s'.pass.Some? ==> PassInv(s'.store, s'.pass.value)
  {
    match step {
      case Call(req) =>
        ServeMarksNothing(cfg, s.store, req);
        if s.pass.Some? { PassFrame(s.store, s'.store, s.pass.value); }
      case MemberPage(limit, page) => MemberPageKeepsPass(cfg, s.store, s.pass.value, limit, page);
      case BlobPage(limit, page) => BlobPageKeepsPass(cfg, s.store, s.pass.value, limit, page);
      case Collect(d) =>
        CollectMarksNothing(s.store, d, s.pass.value.cutoff);
        PassFrame(s.store, s'.store, s.pass.value);
      case SweepPage(limit, page) =>
        SweepRefsMarksNothing(s.store, s.sweep.value.id, ManifestsOf(page.keys));
        if s.pass.Some? { PassFrame(s.store, s'.store, s.pass.value); }
      case FinishRepo =>
        FinishMarksNothing(s.store, s.sweep.value.id);
        if s.pass.Some? { PassFrame(s.store, s'.store, s.pass.value); }
      case _ =>
    }
  }

  /** Purge touches marks, memberships and blobs, never an edge or an outstanding sweep. */
  lemma PurgeKeepsSweep(s: Data, e: Effect, w: Sweep)
    requires SweepInv(s, w) && forall k :: k in e.dels || k in e.puts ==> k.P? || k.C? || k.B?
    ensures var kept := SweepInv(Perform(s, e), w); kept
  {
    SweepFrame(s, Perform(s, e), w);
  }

  lemma MemberPageKeepsSweep(s: Data, keys: set<Key>, cutoff: nat, w: Sweep)
    requires SweepInv(s, w)
    ensures var kept := SweepInv(Perform(s, SweepMembers(s, keys, cutoff)), w); kept
  {
    assert forall k :: k in SweepMembers(s, keys, cutoff).dels ==> k.P? || k.C?;
    PurgeKeepsSweep(s, SweepMembers(s, keys, cutoff), w);
  }

  lemma BlobPageKeepsSweep(s: Data, page: set<Digest>, now: Millis, w: Sweep)
    requires SweepInv(s, w)
    ensures var kept := SweepInv(Perform(s, ScanBlobs(s, page, now)), w); kept
  {
    var e := ScanBlobs(s, page, now);
    assert forall k :: k in e.dels || k in e.puts ==> k.C?;
    PurgeKeepsSweep(s, e, w);
  }

  lemma StepKeepsSweep(cfg: Config, grace: nat, s: Sys, step: Step, s': Sys)
    requires SysInv(cfg, s) && Next(cfg, grace, s, step, s')
    ensures s'.sweep.Some? ==> SweepInv(s'.store, s'.sweep.value)
  {
    if s'.sweep.Some? && s.sweep.Some? {
      var w := s.sweep.value;
      match step {
        case Call(req) => ServeAdvances(cfg, s.store, req); SweepFrame(s.store, s'.store, w);
        case MemberPage(limit, page) => MemberPageKeepsSweep(s.store, Elements(page.keys), s.pass.value.cutoff, w);
        case BlobPage(limit, page) => BlobPageKeepsSweep(s.store, BlobsOf(page.keys), s.pass.value.now, w);
        case Collect(d) => SweepFrame(s.store, s'.store, w);
        case SweepPage(limit, page) => SweepPageKeepsSweep(cfg, s.store, w, limit, page);
        case _ =>
      }
    }
  }

  /** One step of anything, from any state the invariant allows. */
  lemma StepKeepsInv(cfg: Config, grace: nat, s: Sys, step: Step, s': Sys)
    requires SysInv(cfg, s) && Next(cfg, grace, s, step, s')
    ensures SysInv(cfg, s')
  {
    StepKeepsStore(cfg, grace, s, step, s');
    StepKeepsPass(cfg, grace, s, step, s');
    StepKeepsSweep(cfg, grace, s, step, s');
  }
}
