/**
 Pushes planned while their repository was live and applied after it was dropped. Calls are
 atomic in `System`; here one push's plan and its apply come apart, the drop runs between them,
 and everything else goes on as in `System`. What such a straggler leaves behind, exactly when it
 leaves it, and that nothing ever takes it away again.
 */
module Stragglers {
  import opened Results
  import opened Paging
  import opened Keys
  import opened Store
  import opened Interner
  import opened Registry
  import opened Invariants
  import opened IndexSteps
  import opened Requests
  import opened Outcomes
  import opened System
  import opened Runs

  // --- calls and an id without a name -----------------------------------

  /** The id was handed out and no name leads to it any more. */
  ghost predicate Nameless(s: Data, id: RepoId) {
    Bijection(s) && id < NextId(s) && I(id) !in s
  }

  /** What a call leaves as it was for an id it has no name for. */
  ghost predicate PassesBy(s: Data, s': Data, id: RepoId) {
    && Nameless(s', id) && SameKey(s, s', Dead(id))
    && (forall d: Digest :: B(d) in s ==> B(d) in s')
  }

  lemma NamesStay(s: Data, s': Data, id: RepoId)
    requires Nameless(s, id) && LeavesNames(s, s')
    ensures PassesBy(s, s', id)
  {
    NamesFrame(s, s');
    assert SameKey(s, s', I(id)) && SameKey(s, s', Dead(id));
  }

  lemma ReleasePassesBy(s: Data, name: Name, r: RepoId, e: Effect, id: RepoId)
    requires Nameless(s, id) && IdOf(s, name) == Some(r)
    requires e.dels == {N(name), I(r)} && forall k :: k in e.puts ==> k == Dead(r)
    ensures PassesBy(s, Perform(s, e), id)
  {
    var s' := Perform(s, e);
    forall k: Key ensures k.N? || k.I? ==> (k in s' <==> k in s && k != N(name) && k != I(r)) && (k in s' ==> s'[k] == s[k]) { PerformAt(s, e, k); }
    ReleaseKeepsBijection(s, name, r, s');
    assert N(name) in s && r != id;
    PerformAt(s, e, Dead(id));
    forall d: Digest | B(d) in s ensures B(d) in s' { PerformAt(s, e, B(d)); }
  }

  lemma ArrivalPassesBy(s: Data, req: Request, id: RepoId)
    requires Nameless(s, id)
    ensures PassesBy(s, Arrive(s, req).0, id)
    ensures Arrive(s, req).1.Some? && !req.SaveUpload? && !req.EndUpload? ==>
      Arrive(s, req).1.value != id && IdOf(Arrive(s, req).0, req.repo) == Arrive(s, req).1
  {
    if !req.SaveUpload? && !req.EndUpload? {
      InternKeepsBijection(s, req.repo);
      if IdOf(s, req.repo).Some? { assert N(req.repo) in s; }
    }
  }

  lemma PlanPassesBy(cfg: Config, s: Data, r: RepoId, req: Request, id: RepoId)
    requires Nameless(s, id) && Plan(cfg, s, r, req).Some?
    requires req.SaveUpload? || req.EndUpload? || IdOf(s, req.repo) == Some(r)
    ensures PassesBy(s, Perform(s, Plan(cfg, s, r, req).value), id)
  {
    if req.DropRepo? || req.RetireRepo? {
      ReleasePassesBy(s, req.repo, r, Plan(cfg, s, r, req).value, id);
    } else {
      PlanLeavesNames(cfg, s, r, req);
      NamesStay(s, Perform(s, Plan(cfg, s, r, req).value), id);
    }
  }

  lemma SessionsAreSeparate(cfg: Config, s: Data, req: Request)
    requires req.SaveUpload? || req.EndUpload?
    ensures forall k: Key :: !k.U? ==> SameKey(s, Serve(cfg, s, req), k)
  {
    forall k: Key | !k.U? ensures SameKey(s, Serve(cfg, s, req), k) { PerformAt(s, Batch(cfg, s, req).value, k); }
  }

  /** A call can reach an id only through a name, so it changes nothing under one that has none. */
  lemma CallsPassBy(cfg: Config, s: Data, req: Request, id: RepoId)
    requires Nameless(s, id)
    ensures PassesBy(s, Serve(cfg, s, req), id)
    ensures forall k: Key :: Mentions(k, id) ==> SameKey(s, Serve(cfg, s, req), k)
  {
    ArrivalPassesBy(s, req, id);
    if Batch(cfg, s, req).Some? { PlanPassesBy(cfg, Arrive(s, req).0, Arrive(s, req).1.value, req, id); }
    if req.SaveUpload? || req.EndUpload? { SessionsAreSeparate(cfg, s, req); } else { CallsAreIsolated(cfg, s, req); }
  }

  // --- after the last sweep ---------------------------------------------

  /** No name, no sweep on record, none running: nothing will look under this id again. */
  ghost predicate Abandoned(s: Sys, id: RepoId) {
    && Nameless(s.store, id) && Dead(id) !in s.store
    && (s.sweep.Some? ==> s.sweep.value.id != id)
  }

  /** Only a membership nothing references can still go. */
  ghost predicate Left(s: Data, s': Data, id: RepoId) {
    forall k: Key :: Mentions(k, id) ==>
      SameKey(s, s', k) || (k.P? && k !in s' && !ReferencedIn(s, k.digest, id))
  }

  ghost predicate BytesKept(s: Data, s': Data) {
    forall d: Digest :: Referenced(s, d) && B(d) in s ==> B(d) in s'
  }

  /** What any step may do around an id nobody names. */
  ghost predicate Spared(s: Data, s': Data, id: RepoId) {
    && Nameless(s', id) && SameKey(s, s', Dead(id)) && BytesKept(s, s') && Left(s, s', id)
  }

  lemma PurgePassesBy(s: Data, e: Effect, id: RepoId)
    requires Nameless(s, id) && forall k :: k in e.dels || k in e.puts ==> k.P? || k.C? || k.B? || (k.R? && k.repo != id)
    requires forall k :: k in e.puts ==> k.C?
    requires forall k :: k in e.dels && k.P? ==> !ReferencedIn(s, k.digest, k.repo)
    requires forall k :: k in e.dels && k.B? ==> !Referenced(s, k.digest)
    ensures var spared := Spared(s, Perform(s, e), id); spared
  {
    var s' := Perform(s, e);
    forall k: Key | NameKey(k) ensures SameKey(s, s', k) { PerformAt(s, e, k); }
    NamesFrame(s, s');
    assert SameKey(s, s', I(id)) && SameKey(s, s', Dead(id));
    forall k: Key | Mentions(k, id) ensures SameKey(s, s', k) || (k.P? && k !in s' && !ReferencedIn(s, k.digest, id)) { PerformAt(s, e, k); }
    forall d: Digest | Referenced(s, d) && B(d) in s ensures B(d) in s' { PerformAt(s, e, B(d)); }
  }

  lemma MemberPagePassesBy(s: Data, keys: set<Key>, cutoff: nat, id: RepoId)
    requires Nameless(s, id)
    ensures var spared := Spared(s, Perform(s, SweepMembers(s, keys, cutoff)), id); spared
  {
    PurgePassesBy(s, SweepMembers(s, keys, cutoff), id);
  }

  lemma BlobPagePassesBy(s: Data, page: set<Digest>, now: Millis, id: RepoId)
    requires Nameless(s, id)
    ensures var spared := Spared(s, Perform(s, ScanBlobs(s, page, now)), id); spared
  {
    PurgePassesBy(s, ScanBlobs(s, page, now), id);
  }

  lemma CollectPassesBy(s: Data, d: Digest, cutoff: nat, id: RepoId)
    requires Nameless(s, id) && CollectBlob(s, d, cutoff).Some?
    ensures var spared := Spared(s, Perform(s, CollectBlob(s, d, cutoff).value), id); spared
  {
    PurgePassesBy(s, CollectBlob(s, d, cutoff).value, id);
  }

  lemma SweepPagePassesBy(s: Data, other: RepoId, page: set<Digest>, id: RepoId)
    requires Nameless(s, id) && other != id
    ensures var spared := Spared(s, Perform(s, SweepRefs(s, other, page)), id); spared
  {
    PurgePassesBy(s, SweepRefs(s, other, page), id);
  }

  lemma FinishPassesBy(s: Data, other: RepoId, id: RepoId)
    requires Nameless(s, id) && other != id
    ensures Nameless(FinishSweep(s, other), id) && SameKey(s, FinishSweep(s, other), Dead(id))
    ensures forall k: Key :: Mentions(k, id) || k.B? ==> SameKey(s, FinishSweep(s, other), k)
  {
    var s' := FinishSweep(s, other);
    FinishKeepsNames(s, other);
    assert SameKey(s, s', I(id)) && NextId(s') == NextId(s);
  }

  lemma FinishKeepsNames(s: Data, other: RepoId)
    requires Bijection(s)
    ensures Bijection(FinishSweep(s, other)) && forall r: RepoId :: SameKey(s, FinishSweep(s, other), I(r))
  {
    forall k: Key | k.N? || k.I? ensures SameKey(s, FinishSweep(s, other), k) {}
    SameNames(s, FinishSweep(s, other));
  }

  lemma SameNames(s: Data, s': Data)
    requires Bijection(s) && forall k: Key :: k.N? || k.I? ==> SameKey(s, s', k)
    ensures Bijection(s') && NextId(s') == NextId(s) && forall r: RepoId :: SameKey(s, s', I(r))
  {
    forall n: Name ensures SameKey(s, s', N(n)) {}
    forall r: RepoId ensures SameKey(s, s', I(r)) {}
  }

  lemma UnchangedIsSpared(s: Data, s': Data, id: RepoId)
    requires Nameless(s', id) && SameKey(s, s', Dead(id)) && (forall d: Digest :: B(d) in s ==> B(d) in s')
    requires forall k: Key :: Mentions(k, id) ==> SameKey(s, s', k)
    ensures var spared := Spared(s, s', id); spared
  {}

  lemma AbandonedStays(s: Sys, s': Sys, id: RepoId)
    requires Abandoned(s, id) && (var spared := Spared(s.store, s'.store, id); spared) && (s'.sweep.Some? ==> s'.sweep.value.id != id)
    ensures Abandoned(s', id) && BytesKept(s.store, s'.store) && (var left := Left(s.store, s'.store, id); left)
  {}

  /** Every step, from any state whatever, leaves an abandoned id abandoned and what lies under it in place. */
  lemma AbandonedStep(cfg: Config, grace: nat, s: Sys, step: Step, s': Sys, id: RepoId)
    requires Next(cfg, grace, s, step, s') && Abandoned(s, id)
    ensures var spared := Spared(s.store, s'.store, id); spared
    ensures s'.sweep.Some? ==> s'.sweep.value.id != id
  {
    match step {
      case Call(req) =>
        CallsPassBy(cfg, s.store, req, id);
        UnchangedIsSpared(s.store, s'.store, id);
      case MemberPage(limit, page) => MemberPagePassesBy(s.store, Elements(page.keys), s.pass.value.cutoff, id);
      case BlobPage(limit, page) => BlobPagePassesBy(s.store, BlobsOf(page.keys), s.pass.value.now, id);
      case Collect(d) =>
        if CollectBlob(s.store, d, s.pass.value.cutoff).Some? { CollectPassesBy(s.store, d, s.pass.value.cutoff, id); }
        else { UnchangedIsSpared(s.store, s.store, id); }
      case SweepPage(limit, page) => SweepPagePassesBy(s.store, s.sweep.value.id, ManifestsOf(page.keys), id);
      case FinishRepo =>
        FinishPassesBy(s.store, s.sweep.value.id, id);
        forall d: Digest | B(d) in s.store ensures B(d) in s'.store { assert SameKey(s.store, s'.store, B(d)); }
        UnchangedIsSpared(s.store, s'.store, id);
      case _ => UnchangedIsSpared(s.store, s.store, id);
    }
  }

  /** Any run of the machine, from wherever it starts. */
  ghost predicate Onward(cfg: Config, grace: nat, states: seq<Sys>, steps: seq<Step>) {
    |states| == |steps| + 1 && forall i :: 0 <= i < |steps| ==> StepAt(cfg, grace, states, steps, i)
  }

  lemma AbandonedAt(cfg: Config, grace: nat, states: seq<Sys>, steps: seq<Step>, i: nat, id: RepoId)
    requires Onward(cfg, grace, states, steps) && i < |steps| && Abandoned(states[i], id)
    ensures Abandoned(states[i + 1], id) && BytesKept(states[i].store, states[i + 1].store)
    ensures var left := Left(states[i].store, states[i + 1].store, id); left
  {
    assert StepAt(cfg, grace, states, steps, i);
    AbandonedStep(cfg, grace, states[i], steps[i], states[i + 1], id);
    AbandonedStays(states[i], states[i + 1], id);
  }

  /** The edge, the membership beside it and the blob's own record. */
  ghost predicate Pinned(s: Data, b: Digest, id: RepoId, m: Digest) {
    R(b, id, m) in s && Referenced(s, b) && ReferencedIn(s, b, id)
  }

  lemma EdgePins(s: Data, b: Digest, id: RepoId, m: Digest)
    requires R(b, id, m) in s
    ensures Pinned(s, b, id, m)
  {
    assert InRange(R(b, id, m), RefsOf(b)) && InRange(R(b, id, m), RefsIn(b, id));
  }

  lemma LeftTwice(s: Data, s1: Data, s2: Data, id: RepoId)
    requires (forall k: Key :: Mentions(k, id) && !k.P? ==> SameKey(s, s1, k)) && Left(s1, s2, id)
    ensures forall k: Key :: Mentions(k, id) && !k.P? ==> SameKey(s, s2, k)
  {
    forall k: Key | Mentions(k, id) && !k.P? ensures SameKey(s, s2, k) { assert SameKey(s, s1, k) && SameKey(s1, s2, k); }
  }

  /**
   What is left under an abandoned id is left for good: in every later state of every run, every
   key but an unreferenced membership is as it was, and a blob with an edge there keeps both its
   record and its membership - so no purge pass ever collects it.
   */
  lemma {:induction false} LeftForGood(cfg: Config, grace: nat, states: seq<Sys>, steps: seq<Step>, i: nat, id: RepoId)
    requires Onward(cfg, grace, states, steps) && i < |states| && Abandoned(states[0], id)
    ensures Abandoned(states[i], id)
    ensures forall k: Key :: Mentions(k, id) && !k.P? ==> SameKey(states[0].store, states[i].store, k)
    ensures forall b: Digest, m: Digest :: R(b, id, m) in states[0].store ==>
      && SameKey(states[0].store, states[i].store, P(id, b))
      && (B(b) in states[0].store ==> B(b) in states[i].store)
  {
    if i > 0 {
      LeftForGood(cfg, grace, states, steps, i - 1, id);
      AbandonedAt(cfg, grace, states, steps, i - 1, id);
      var s, s1, s2 := states[0].store, states[i - 1].store, states[i].store;
      LeftTwice(s, s1, s2, id);
      forall b: Digest, m: Digest | R(b, id, m) in s
        ensures SameKey(s, s2, P(id, b)) && (B(b) in s ==> B(b) in s2)
      {
        assert SameKey(s, s1, R(b, id, m));
        EdgePins(s1, b, id, m);
        assert Mentions(P(id, b), id);
      }
    }
  }

  // --- the straggler lands ----------------------------------------------

  /**
   A push that planned under a live id at state `p`, and a later state of the same run. `d` is
   pushed under `tags`; everything the batch writes was decided at `p`.
   */
  ghost predicate Planned(cfg: Config, grace: nat, states: seq<Sys>, steps: seq<Step>, p: nat, q: nat, id: RepoId,
                          d: Digest, claimed: Option<Digest>, tags: seq<Tag>)
  {
    && IsRun(cfg, grace, states, steps) && p <= q < |states| && id != RESERVED_ID
    && I(id) in states[p].store && PushRefusal(cfg, states[p].store, id, d, claimed, tags).None?
  }

  function LinkedAt(cfg: Config, s: Data, id: RepoId, d: Digest): set<Digest> {
    LinkedBlobs(s, id, cfg.doc(d).blobs)
  }

  /** The state once the batch planned against `plan` is applied to it. */
  ghost function Arrived(cfg: Config, plan: Data, s: Sys, id: RepoId, d: Digest, tags: seq<Tag>, now: Millis): Sys {
    s.(store := Perform(s.store, PushEffect(cfg, plan, id, d, Elements(tags), now)))
  }

  /** The part of a push's batch that matters here: no name, no blob record, its manifest and its edges. */
  ghost predicate Lands(e: Effect, id: RepoId, d: Digest, linked: set<Digest>, rec: Val) {
    && (forall k: Key :: NameKey(k) || k.B? || k.R? || k.M? ==> k !in e.dels)
    && (forall k: Key :: NameKey(k) || k.B? ==> k !in e.puts)
    && (forall k: Key :: k.R? ==> (k in e.puts <==> k.repo == id && k.manifest == d && k.blob in linked))
    && (forall k: Key :: k.M? ==> (k in e.puts <==> k == M(id, d)))
    && (M(id, d) in e.puts ==> e.puts[M(id, d)] == rec)
  }

  lemma PushDelsWhere(cfg: Config, s: Data, r: RepoId, d: Digest, tags: set<Tag>, now: Millis, k: Key)
    requires k in PushEffect(cfg, s, r, d, tags, now).dels
    ensures k.C? || k.G? || k.F?
  {
    TagSetDelsAt(cfg, s, r, tags, d, k);
  }

  lemma PushRecord(cfg: Config, s: Data, r: RepoId, d: Digest, tags: set<Tag>, now: Millis)
    ensures var puts := PushEffect(cfg, s, r, d, tags, now).puts; M(r, d) in puts && puts[M(r, d)] == RecordOf(cfg, d, now)
  {
    PushPutsWhere(cfg, s, r, d, tags, now, M(r, d));
    PushTouches(cfg, s, r, d, tags, now, M(r, d));
    PerformAt(s, PushEffect(cfg, s, r, d, tags, now), M(r, d));
  }

  ghost predicate LandsAt(e: Effect, id: RepoId, d: Digest, linked: set<Digest>, k: Key) {
    NameKey(k) || k.B? || k.R? || k.M? ==>
      k !in e.dels && (k in e.puts <==> (k.R? && k.repo == id && k.manifest == d && k.blob in linked) || k == M(id, d))
  }

  lemma PushLandsAt(cfg: Config, plan: Data, id: RepoId, d: Digest, tags: set<Tag>, now: Millis, k: Key)
    ensures var lands := LandsAt(PushEffect(cfg, plan, id, d, tags, now), id, d, LinkedAt(cfg, plan, id, d), k); lands
  {
    if NameKey(k) || k.B? || k.R? || k.M? {
      if k in PushEffect(cfg, plan, id, d, tags, now).dels { PushDelsWhere(cfg, plan, id, d, tags, now, k); }
      assert !Written(cfg, id, tags, d, now, k);
      PushPutsWhere(cfg, plan, id, d, tags, now, k);
    }
  }

  lemma LandsEverywhere(e: Effect, id: RepoId, d: Digest, linked: set<Digest>, rec: Val)
    requires forall k: Key :: LandsAt(e, id, d, linked, k)
    requires M(id, d) in e.puts && e.puts[M(id, d)] == rec
    ensures var lands := Lands(e, id, d, linked, rec); lands
  {
    forall k: Key | NameKey(k) || k.B? || k.R? || k.M? ensures LandsAt(e, id, d, linked, k) {}
  }

  lemma PushLands(cfg: Config, plan: Data, id: RepoId, d: Digest, tags: set<Tag>, now: Millis)
    ensures var lands := Lands(PushEffect(cfg, plan, id, d, tags, now), id, d, LinkedAt(cfg, plan, id, d), RecordOf(cfg, d, now)); lands
  {
    forall k: Key ensures LandsAt(PushEffect(cfg, plan, id, d, tags, now), id, d, LinkedAt(cfg, plan, id, d), k) {
      PushLandsAt(cfg, plan, id, d, tags, now, k);
    }
    PushRecord(cfg, plan, id, d, tags, now);
    LandsEverywhere(PushEffect(cfg, plan, id, d, tags, now), id, d, LinkedAt(cfg, plan, id, d), RecordOf(cfg, d, now));
  }

  /** What landing does to one key. */
  lemma LandedAt(s: Data, e: Effect, id: RepoId, d: Digest, linked: set<Digest>, rec: Val, k: Key)
    requires Lands(e, id, d, linked, rec)
    ensures var w := Perform(s, e);
      && (NameKey(k) || k.B? ==> SameKey(s, w, k))
      && (k.R? ==> (k in w <==> k in s || (k.repo == id && k.manifest == d && k.blob in linked)))
      && (k == M(id, d) ==> k in w && w[k] == rec)
      && (k.M? && k != M(id, d) ==> SameKey(s, w, k))
  {
    PerformAt(s, e, k);
  }

  lemma LandingLeavesNames(s: Data, e: Effect, id: RepoId, d: Digest, linked: set<Digest>, rec: Val)
    requires Lands(e, id, d, linked, rec)
    ensures var kept := LeavesNames(s, Perform(s, e)); kept
  {
    var w := Perform(s, e);
    forall k: Key | NameKey(k) ensures SameKey(s, w, k) { LandedAt(s, e, id, d, linked, rec, k); }
    forall b: Digest | B(b) in s ensures B(b) in w { LandedAt(s, e, id, d, linked, rec, B(b)); }
  }

  lemma SettledIsNameless(cfg: Config, grace: nat, states: seq<Sys>, steps: seq<Step>, q: nat, id: RepoId)
    requires IsRun(cfg, grace, states, steps) && q < |states| && id < NextId(states[q].store) && I(id) !in states[q].store
    ensures Nameless(states[q].store, id)
    ensures Dead(id) !in states[q].store ==> Abandoned(states[q], id)
  {
    ReachableInv(cfg, grace, states, steps, q);
  }

  /** Nothing but the one manifest and the edges of its linked layers, of all the manifests and edges under the id. */
  ghost predicate OnlyTheStraggler(s: Data, id: RepoId, d: Digest, linked: set<Digest>) {
    && M(id, d) in s
    && (forall b: Digest, m: Digest :: R(b, id, m) in s <==> m == d && b in linked)
  }

  lemma LandsOnNothing(s: Sys, e: Effect, id: RepoId, d: Digest, linked: set<Digest>, rec: Val)
    requires Lands(e, id, d, linked, rec) && Unmentioned(s.store, id) && Abandoned(s, id)
    ensures OnlyTheStraggler(Perform(s.store, e), id, d, linked) && Abandoned(s.(store := Perform(s.store, e)), id)
    ensures forall b: Digest :: SameKey(s.store, Perform(s.store, e), B(b))
  {
    LandingLeavesNames(s.store, e, id, d, linked, rec);
    NamesStay(s.store, Perform(s.store, e), id);
    LandedAt(s.store, e, id, d, linked, rec, M(id, d));
    forall b: Digest, m: Digest ensures R(b, id, m) in Perform(s.store, e) <==> m == d && b in linked {
      LandedAt(s.store, e, id, d, linked, rec, R(b, id, m));
      assert Mentions(R(b, id, m), id);
    }
    forall b: Digest ensures SameKey(s.store, Perform(s.store, e), B(b)) { LandedAt(s.store, e, id, d, linked, rec, B(b)); }
  }

  lemma StragglerStays(cfg: Config, grace: nat, states: seq<Sys>, steps: seq<Step>, i: nat, id: RepoId, d: Digest, linked: set<Digest>)
    requires Onward(cfg, grace, states, steps) && i < |states| && Abandoned(states[0], id)
    requires OnlyTheStraggler(states[0].store, id, d, linked)
    ensures Abandoned(states[i], id) && OnlyTheStraggler(states[i].store, id, d, linked)
    ensures forall b: Digest :: b in linked && B(b) in states[0].store ==> B(b) in states[i].store && Referenced(states[i].store, b)
  {
    LeftForGood(cfg, grace, states, steps, i, id);
    assert SameKey(states[0].store, states[i].store, M(id, d));
    forall b: Digest, m: Digest ensures SameKey(states[0].store, states[i].store, R(b, id, m)) { assert Mentions(R(b, id, m), id); }
    forall b: Digest | b in linked && B(b) in states[0].store ensures B(b) in states[i].store && Referenced(states[i].store, b) {
      assert R(b, id, d) in states[0].store;
      EdgePins(states[i].store, b, id, d);
    }
  }

  /**
   A push applied after its repository's sweep finished leaves its manifest and exactly its linked
   layers' edges under an id with no name, and there they stay in every later state: the drop is
   undone for good, and no pass ever collects those layers.
   */
  lemma StragglerPinsItsLayers(cfg: Config, grace: nat, states: seq<Sys>, steps: seq<Step>, p: nat, q: nat, id: RepoId,
                               d: Digest, claimed: Option<Digest>, tags: seq<Tag>, now: Millis, later: seq<Sys>, more: seq<Step>, i: nat)
    requires Planned(cfg, grace, states, steps, p, q, id, d, claimed, tags) && Released(states[q].store, id)
    requires Onward(cfg, grace, later, more) && i < |later|
    requires later[0] == Arrived(cfg, states[p].store, states[q], id, d, tags, now)
    ensures Abandoned(later[i], id) && OnlyTheStraggler(later[i].store, id, d, LinkedAt(cfg, states[p].store, id, d))
    ensures forall b: Digest :: b in LinkedAt(cfg, states[p].store, id, d) && B(b) in states[q].store ==>
      B(b) in later[i].store && Referenced(later[i].store, b)
  {
    var plan := states[p].store;
    var linked := LinkedAt(cfg, plan, id, d);
    SettledIsNameless(cfg, grace, states, steps, q, id);
    SettledAt(cfg, grace, states, steps, q, id);
    PushLands(cfg, plan, id, d, Elements(tags), now);
    LandsOnNothing(states[q], PushEffect(cfg, plan, id, d, Elements(tags), now), id, d, linked, RecordOf(cfg, d, now));
    forall b: Digest | B(b) in states[q].store ensures B(b) in later[0].store { assert SameKey(states[q].store, later[0].store, B(b)); }
    StragglerStays(cfg, grace, later, more, i, id, d, linked);
  }

  // --- a straggler the sweep may still meet -----------------------------

  ghost predicate Sweeping(s: Sys, id: RepoId) { s.sweep.Some? && s.sweep.value.id == id }

  /** The running sweep of this repository has already gone by the manifest. */
  ghost predicate GoneBy(s: Sys, id: RepoId, d: Digest) {
    Sweeping(s, id) && Passed(Before, s.sweep.value.walk, M(id, d))
  }

  /** The manifest's record is there and leads to the edge. */
  ghost predicate Traceable(s: Data, b: Digest, id: RepoId, m: Digest) {
    M(id, m) in s && s[M(id, m)].ManifestV? && b in s[M(id, m)].layers
  }

  /**
   A dropped repository on its way out, with one manifest pushed late. `missed` says the running
   sweep went by that manifest before it landed: then its edges, and no others, are behind it.
   */
  ghost predicate Draining(s: Sys, id: RepoId, d: Digest, linked: set<Digest>, missed: bool) {
    && Nameless(s.store, id) && Dead(id) in s.store
    && (forall b: Digest, m: Digest :: R(b, id, m) in s.store ==> Traceable(s.store, b, id, m))
    && (forall b: Digest, m: Digest :: R(b, id, m) in s.store && GoneBy(s, id, m) ==> missed && m == d)
    && (missed ==> GoneBy(s, id, d) && forall b: Digest :: R(b, id, d) in s.store <==> b in linked)
  }

  lemma LayersHold(cfg: Config, s: Data, id: RepoId, d: Digest, b: Digest)
    requires b in LinkedAt(cfg, s, id, d)
    ensures b in Layers(cfg.doc(d))
  {
    var i :| 0 <= i < |cfg.doc(d).blobs| && cfg.doc(d).blobs[i].digest == b;
    assert Layers(cfg.doc(d))[i] == b;
  }

  lemma DrainingStarts(cfg: Config, plan: Data, s: Sys, id: RepoId, d: Digest, tags: seq<Tag>, now: Millis)
    requires SysInv(cfg, s) && Nameless(s.store, id) && Dead(id) in s.store
    ensures var start := Draining(Arrived(cfg, plan, s, id, d, tags, now), id, d, LinkedAt(cfg, plan, id, d), GoneBy(s, id, d)); start
  {
    forall b: Digest | b in LinkedAt(cfg, plan, id, d) ensures b in Layers(cfg.doc(d)) { LayersHold(cfg, plan, id, d, b); }
    PushLands(cfg, plan, id, d, Elements(tags), now);
    EdgesTraceable(cfg, s.store, id);
    LandingDrains(s, PushEffect(cfg, plan, id, d, Elements(tags), now), id, d, LinkedAt(cfg, plan, id, d), RecordOf(cfg, d, now));
  }

  lemma EdgesTraceable(cfg: Config, s: Data, id: RepoId)
    requires Inv(cfg, s)
    ensures forall b: Digest, m: Digest :: R(b, id, m) in s ==> Traceable(s, b, id, m)
  {}

  lemma LandingDrains(s: Sys, e: Effect, id: RepoId, d: Digest, linked: set<Digest>, rec: Val)
    requires Lands(e, id, d, linked, rec) && Nameless(s.store, id) && Dead(id) in s.store
    requires rec.ManifestV? && forall b: Digest :: b in linked ==> b in rec.layers
    requires forall b: Digest, m: Digest :: R(b, id, m) in s.store ==> Traceable(s.store, b, id, m)
    requires forall b: Digest, m: Digest :: R(b, id, m) in s.store && m == d ==> b in rec.layers
    requires s.sweep.Some? ==> SweepInv(s.store, s.sweep.value)
    ensures var start := Draining(s.(store := Perform(s.store, e)), id, d, linked, GoneBy(s, id, d)); start
  {
    var w := Perform(s.store, e);
    LandingLeavesNames(s.store, e, id, d, linked, rec);
    NamesStay(s.store, w, id);
    forall b: Digest, m: Digest
      ensures R(b, id, m) in w <==> R(b, id, m) in s.store || (m == d && b in linked)
      ensures R(b, id, m) in w ==> Traceable(w, b, id, m)
    {
      LandedAt(s.store, e, id, d, linked, rec, R(b, id, m));
      LandedAt(s.store, e, id, d, linked, rec, M(id, m));
    }
  }

  /** A step that leaves the id's edges, manifests and sweep alone keeps everything above. */
  lemma DrainingFrame(s: Sys, s': Sys, id: RepoId, d: Digest, linked: set<Digest>, missed: bool)
    requires Draining(s, id, d, linked, missed)
    requires Nameless(s'.store, id) && SameKey(s.store, s'.store, Dead(id))
    requires forall k: Key :: (k.R? || k.M?) && k.repo == id ==> SameKey(s.store, s'.store, k)
    requires s'.sweep == s.sweep || (!missed && s'.sweep == Some(Sweep(id, At(None)))) || (!missed && !Sweeping(s', id))
    ensures var still := Draining(s', id, d, linked, missed); still
  {
    forall b: Digest, m: Digest ensures SameKey(s.store, s'.store, R(b, id, m)) && SameKey(s.store, s'.store, M(id, m)) {}
  }

  lemma SweepPageDrains(s: Sys, limit: nat, page: Page<Key>, s': Sys, id: RepoId, d: Digest, linked: set<Digest>, missed: bool)
    requires Draining(s, id, d, linked, missed) && Sweeping(s, id) && s.sweep.value.walk.At?
    requires IsPage(Before, Pool(s.store, ManifestsIn(id)), s.sweep.value.walk.cursor, limit, page)
    requires s' == s.(store := Perform(s.store, SweepRefs(s.store, id, ManifestsOf(page.keys))), sweep := Some(Sweep(id, Resume(page))))
    ensures var still := Draining(s', id, d, linked, missed); still
  {
    SweepLeavesTheRest(s.store, id, ManifestsOf(page.keys));
    KeysAreOrdered();
    forall b: Digest, m: Digest ensures EdgeSwept(s, s', id, b, m) { SweepsOneEdge(s, limit, page, s', id, b, m); }
    EdgesSwept(s, s', id, d, linked, missed);
  }

  lemma SweepLeavesTheRest(s: Data, id: RepoId, page: set<Digest>)
    ensures forall k: Key :: !k.R? ==> SameKey(s, Perform(s, SweepRefs(s, id, page)), k)
  {
    var e := SweepRefs(s, id, page);
    assert forall k :: k in e.dels ==> k.R?;
    forall k: Key | !k.R? ensures SameKey(s, Perform(s, e), k) { PerformAt(s, e, k); }
  }

  ghost predicate EdgeSwept(s: Sys, s': Sys, id: RepoId, b: Digest, m: Digest) {
    && (R(b, id, m) in s'.store ==> R(b, id, m) in s.store && (GoneBy(s', id, m) ==> GoneBy(s, id, m)))
    && (R(b, id, m) in s.store && GoneBy(s, id, m) ==> R(b, id, m) in s'.store)
    && (GoneBy(s, id, m) ==> GoneBy(s', id, m))
  }

  lemma EdgesSwept(s: Sys, s': Sys, id: RepoId, d: Digest, linked: set<Digest>, missed: bool)
    requires Draining(s, id, d, linked, missed) && (forall k: Key :: !k.R? ==> SameKey(s.store, s'.store, k))
    requires forall b: Digest, m: Digest :: EdgeSwept(s, s', id, b, m)
    ensures var still := Draining(s', id, d, linked, missed); still
  {
    NamesFrame(s.store, s'.store);
    assert SameKey(s.store, s'.store, I(id)) && SameKey(s.store, s'.store, Dead(id));
    forall b: Digest, m: Digest | R(b, id, m) in s'.store
      ensures Traceable(s'.store, b, id, m) && (GoneBy(s', id, m) ==> missed && m == d)
    {
      assert EdgeSwept(s, s', id, b, m) && SameKey(s.store, s'.store, M(id, m));
    }
    if missed {
      assert EdgeSwept(s, s', id, d, d);
      forall b: Digest ensures R(b, id, d) in s'.store <==> b in linked { assert EdgeSwept(s, s', id, b, d); }
    }
  }

  /** One page and one edge: the page removes the edges of the manifests it serves, and no other. */
  lemma SweepsOneEdge(s: Sys, limit: nat, page: Page<Key>, s': Sys, id: RepoId, b: Digest, m: Digest)
    requires StrictOrder(Before) && Sweeping(s, id) && s.sweep.value.walk.At?
    requires R(b, id, m) in s.store ==> Traceable(s.store, b, id, m)
    requires IsPage(Before, Pool(s.store, ManifestsIn(id)), s.sweep.value.walk.cursor, limit, page)
    requires s' == s.(store := Perform(s.store, SweepRefs(s.store, id, ManifestsOf(page.keys))), sweep := Some(Sweep(id, Resume(page))))
    ensures EdgeSwept(s, s', id, b, m)
  {
    var e := SweepRefs(s.store, id, ManifestsOf(page.keys));
    PageCovers(Before, Pool(s.store, ManifestsIn(id)), s.sweep.value.walk, limit, page, M(id, m));
    InPage(page, id, m);
    PerformAt(s.store, e, R(b, id, m));
    PageIsOfTheRepo(s.store, s.sweep.value.walk.cursor, limit, page, id, m);
    if R(b, id, m) in s.store { assert m in ManifestsOf(page.keys) <==> R(b, id, m) in e.dels; }
  }

  lemma PageIsOfTheRepo(s: Data, cursor: Option<Key>, limit: nat, page: Page<Key>, id: RepoId, m: Digest)
    requires IsPage(Before, Pool(s, ManifestsIn(id)), cursor, limit, page)
    ensures m in ManifestsOf(page.keys) ==> M(id, m) in page.keys
  {
    if m in ManifestsOf(page.keys) {
      var k :| k in page.keys && k.M? && k.digest == m;
      assert k in Pool(s, ManifestsIn(id));
    }
  }

  lemma PurgeLeavesEdges(s: Data, e: Effect, id: RepoId)
    requires Nameless(s, id) && forall k :: k in e.dels || k in e.puts ==> k.P? || k.C? || k.B? || (k.R? && k.repo != id)
    ensures var s' := Perform(s, e);
      && Nameless(s', id) && SameKey(s, s', Dead(id))
      && forall k: Key :: (k.R? || k.M?) && k.repo == id ==> SameKey(s, s', k)
  {
    var s' := Perform(s, e);
    forall k: Key | NameKey(k) || k.M? || (k.R? && k.repo == id) ensures SameKey(s, s', k) { PerformAt(s, e, k); }
    NamesFrame(s, s');
    assert SameKey(s, s', I(id)) && SameKey(s, s', Dead(id));
  }

  lemma DrainingStep(cfg: Config, grace: nat, s: Sys, step: Step, s': Sys, id: RepoId, d: Digest, linked: set<Digest>, missed: bool)
    requires Next(cfg, grace, s, step, s') && Draining(s, id, d, linked, missed) && !Wipes(s, step, id)
    ensures var still := Draining(s', id, d, linked, missed && !step.Crash?); still
  {
    if step.SweepPage? && s.sweep.value.id == id {
      SweepPageDrains(s, step.limit, step.page, s', id, d, linked, missed);
    } else if step.Crash? {
      CrashForgets(s, id, d, linked, missed);
    } else {
      match step {
        case Call(req) => CallsPassBy(cfg, s.store, req, id);
        case MemberPage(limit, page) => PurgeLeavesEdges(s.store, SweepMembers(s.store, Elements(page.keys), s.pass.value.cutoff), id);
        case BlobPage(limit, page) => PurgeLeavesEdges(s.store, ScanBlobs(s.store, BlobsOf(page.keys), s.pass.value.now), id);
        case Collect(b) =>
          var e := CollectBlob(s.store, b, s.pass.value.cutoff);
          if e.Some? { PurgeLeavesEdges(s.store, e.value, id); }
        case SweepPage(limit, page) => PurgeLeavesEdges(s.store, SweepRefs(s.store, s.sweep.value.id, ManifestsOf(page.keys)), id);
        case FinishRepo => FinishPassesBy(s.store, s.sweep.value.id, id);
        case _ =>
      }
      DrainingFrame(s, s', id, d, linked, missed);
    }
  }

  /** A crash forgets the running sweep, so the next one starts over and meets the late manifest. */
  lemma CrashForgets(s: Sys, id: RepoId, d: Digest, linked: set<Digest>, missed: bool)
    requires Draining(s, id, d, linked, missed)
    ensures var still := Draining(s.(pass := None, sweep := None), id, d, linked, false); still
  {}

  ghost predicate Uninterrupted(steps: seq<Step>, n: nat)
    requires n <= |steps|
  {
    forall k :: 0 <= k < n ==> !steps[k].Crash?
  }

  lemma {:induction false} DrainingRun(cfg: Config, grace: nat, states: seq<Sys>, steps: seq<Step>, i: nat,
                                       id: RepoId, d: Digest, linked: set<Digest>, missed: bool)
    requires Onward(cfg, grace, states, steps) && i < |states| && Draining(states[0], id, d, linked, missed)
    requires forall k :: 0 <= k < i ==> !Wipes(states[k], steps[k], id)
    ensures var still := Draining(states[i], id, d, linked, missed && Uninterrupted(steps, i)); still
  {
    if i > 0 {
      DrainingRun(cfg, grace, states, steps, i - 1, id, d, linked, missed);
      assert StepAt(cfg, grace, states, steps, i - 1);
      assert !Wipes(states[i - 1], steps[i - 1], id);
      DrainingStep(cfg, grace, states[i - 1], steps[i - 1], states[i], id, d, linked, missed && Uninterrupted(steps, i - 1));
      assert Uninterrupted(steps, i) <==> Uninterrupted(steps, i - 1) && !steps[i - 1].Crash?;
    }
  }

  /** All that is left under the id: nothing, or the missed manifest's edges. */
  ghost predicate Residue(s: Data, id: RepoId, d: Digest, linked: set<Digest>, missed: bool) {
    forall k: Key :: Mentions(k, id) ==> (k in s <==> missed && k.R? && k.manifest == d && k.blob in linked)
  }

  lemma WipeLeaves(cfg: Config, grace: nat, s: Sys, s': Sys, id: RepoId, d: Digest, linked: set<Digest>, missed: bool)
    requires Next(cfg, grace, s, FinishRepo, s') && Wipes(s, FinishRepo, id) && Draining(s, id, d, linked, missed)
    ensures Abandoned(s', id) && Residue(s'.store, id, d, linked, missed)
  {
    var w := FinishSweep(s.store, id);
    FinishKeepsNames(s.store, id);
    assert SameKey(s.store, w, I(RESERVED_ID)) && SameKey(s.store, w, I(id));
    forall k: Key | Mentions(k, id) ensures k in w <==> missed && k.R? && k.manifest == d && k.blob in linked {
      if k.R? {
        assert k == R(k.blob, id, k.manifest) && SameKey(s.store, w, k) && GoneBy(s, id, k.manifest);
      }
    }
  }

  /**
   A push applied between the tombstone and the end of the sweep. When the sweep finishes, the
   drop is complete - not one key in any range mentions the id - unless that very sweep had gone
   by the manifest before it landed and ran on uninterrupted; then exactly the edges of its linked
   layers remain, with no record left to find them by, and they remain for good.
   */
  lemma LateDropIsComplete(cfg: Config, grace: nat, states: seq<Sys>, steps: seq<Step>, p: nat, q: nat, id: RepoId,
                           d: Digest, claimed: Option<Digest>, tags: seq<Tag>, now: Millis,
                           later: seq<Sys>, more: seq<Step>, f: nat, i: nat)
    requires Planned(cfg, grace, states, steps, p, q, id, d, claimed, tags) && Dead(id) in states[q].store
    requires Onward(cfg, grace, later, more) && f < i < |later|
    requires later[0] == Arrived(cfg, states[p].store, states[q], id, d, tags, now)
    requires Wipes(later[f], more[f], id) && forall k :: 0 <= k < f ==> !Wipes(later[k], more[k], id)
    ensures var abandoned := Abandoned(later[i], id); abandoned
    ensures var residue := Residue(later[i].store, id, d, LinkedAt(cfg, states[p].store, id, d), GoneBy(states[q], id, d) && Uninterrupted(more, f)); residue
  {
    LandingStartsTheDrain(cfg, grace, states, steps, q, states[p].store, id, d, tags, now);
    DrainsAway(cfg, grace, later, more, f, i, id, d, LinkedAt(cfg, states[p].store, id, d), GoneBy(states[q], id, d));
  }

  lemma DrainsAway(cfg: Config, grace: nat, states: seq<Sys>, steps: seq<Step>, f: nat, i: nat, id: RepoId, d: Digest, linked: set<Digest>, missed: bool)
    requires Onward(cfg, grace, states, steps) && f < i < |states|
    requires var start := Draining(states[0], id, d, linked, missed); start
    requires Wipes(states[f], steps[f], id) && forall k :: 0 <= k < f ==> !Wipes(states[k], steps[k], id)
    ensures var abandoned := Abandoned(states[i], id); abandoned
    ensures var residue := Residue(states[i].store, id, d, linked, missed && Uninterrupted(steps, f)); residue
  {
    DrainEnds(cfg, grace, states, steps, f, id, d, linked, missed);
    AfterTheWipe(cfg, grace, states, steps, f + 1, i, id);
    ResidueStays(states[f + 1].store, states[i].store, id, d, linked, missed && Uninterrupted(steps, f));
  }

  lemma LandingStartsTheDrain(cfg: Config, grace: nat, states: seq<Sys>, steps: seq<Step>, q: nat, plan: Data,
                              id: RepoId, d: Digest, tags: seq<Tag>, now: Millis)
    requires IsRun(cfg, grace, states, steps) && q < |states| && Dead(id) in states[q].store
    ensures var start := Draining(Arrived(cfg, plan, states[q], id, d, tags, now), id, d, LinkedAt(cfg, plan, id, d), GoneBy(states[q], id, d)); start
  {
    ReachableInv(cfg, grace, states, steps, q);
    SettledAt(cfg, grace, states, steps, q, id);
    SettledIsNameless(cfg, grace, states, steps, q, id);
    DrainingStarts(cfg, plan, states[q], id, d, tags, now);
  }

  lemma DrainEnds(cfg: Config, grace: nat, states: seq<Sys>, steps: seq<Step>, f: nat, id: RepoId, d: Digest, linked: set<Digest>, missed: bool)
    requires Onward(cfg, grace, states, steps) && f < |steps|
    requires var start := Draining(states[0], id, d, linked, missed); start
    requires Wipes(states[f], steps[f], id) && forall k :: 0 <= k < f ==> !Wipes(states[k], steps[k], id)
    ensures Abandoned(states[f + 1], id)
    ensures var residue := Residue(states[f + 1].store, id, d, linked, missed && Uninterrupted(steps, f)); residue
  {
    DrainingRun(cfg, grace, states, steps, f, id, d, linked, missed);
    assert StepAt(cfg, grace, states, steps, f);
    WipeLeaves(cfg, grace, states[f], states[f + 1], id, d, linked, missed && Uninterrupted(steps, f));
  }

  lemma ResidueStays(s: Data, s': Data, id: RepoId, d: Digest, linked: set<Digest>, missed: bool)
    requires var residue := Residue(s, id, d, linked, missed); residue
    requires forall k: Key :: Mentions(k, id) && !k.P? ==> SameKey(s, s', k)
    requires forall k: Key :: Mentions(k, id) && k in s' ==> k in s
    ensures var residue := Residue(s', id, d, linked, missed); residue
  {
    forall k: Key | Mentions(k, id) ensures k in s' <==> missed && k.R? && k.manifest == d && k.blob in linked {
      if !k.P? { assert SameKey(s, s', k); }
    }
  }

  /** The same, counted from any state of the run. No membership appears where there is none. */
  lemma {:induction false} AfterTheWipe(cfg: Config, grace: nat, states: seq<Sys>, steps: seq<Step>, j: nat, i: nat, id: RepoId)
    requires Onward(cfg, grace, states, steps) && j <= i < |states| && Abandoned(states[j], id)
    ensures Abandoned(states[i], id)
    ensures forall k: Key :: Mentions(k, id) && !k.P? ==> SameKey(states[j].store, states[i].store, k)
    ensures forall k: Key :: Mentions(k, id) && k in states[i].store ==> k in states[j].store
    decreases i
  {
    if j < i {
      AfterTheWipe(cfg, grace, states, steps, j, i - 1, id);
      AbandonedAt(cfg, grace, states, steps, i - 1, id);
      LeftTwice(states[j].store, states[i - 1].store, states[i].store, id);
      NothingAppears(states[j].store, states[i - 1].store, states[i].store, id);
    }
  }

  lemma NothingAppears(s: Data, s1: Data, s2: Data, id: RepoId)
    requires (forall k: Key :: Mentions(k, id) && k in s1 ==> k in s) && Left(s1, s2, id)
    ensures forall k: Key :: Mentions(k, id) && k in s2 ==> k in s
  {
    forall k: Key | Mentions(k, id) && k in s2 ensures k in s { assert SameKey(s1, s2, k); }
  }
}
