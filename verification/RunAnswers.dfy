/**
 What calls are owed and what they may take, over whole runs: every stored manifest was pushed, a
 purge takes only what nothing needs, and a retirement only what was interned before its watermark.
 */
module RunAnswers {
  import opened Results
  import opened Paging
  import opened Keys
  import opened Store
  import opened Interner
  import opened Registry
  import opened Invariants
  import opened IndexSteps
  import opened Retractions
  import opened Requests
  import opened System
  import opened Runs
  import opened Guards
  import opened Answers

  // --- records ----------------------------------------------------------

  /** What a call does to one manifest record: a push of it that goes ahead writes it, deletes take it. */
  ghost predicate RecordMoves(cfg: Config, s: Data, s': Data, req: Request, k: Key)
    requires k.M?
  {
    || SameKey(s, s', k)
    || (&& req.PutManifest? && req.digest == k.digest && Intern(s, req.repo).1 == Some(k.repo)
        && Pushable(cfg, Intern(s, req.repo).0, k.repo, req.digest, req.claimed, req.tags)
        && k in s' && IsRecord(cfg, req.digest, req.now, s'[k]))
    || ((req.RemoveManifest? || req.PurgeManifest?) && req.digest == k.digest && IdOf(s, req.repo) == Some(k.repo) && k in s && k !in s')
  }

  lemma InternKeepsRecords(s: Data, name: Name, k: Key)
    requires !k.N? && !k.I?
    ensures SameKey(s, Intern(s, name).0, k)
  {}

  lemma InterningRecord(cfg: Config, s: Data, req: Request, k: Key)
    requires k.M? && Interns(req)
    ensures RecordMoves(cfg, s, Serve(cfg, s, req), req, k)
  {
    var (s1, r) := Intern(s, req.repo);
    InternKeepsRecords(s, req.repo, k);
    if r.None? {
      ExhaustedAnswers(cfg, s, req);
    } else if req.Commit? {
      CommitAnswers(cfg, s, req, s1, r.value);
      assert CommitAnswer(s1, Serve(cfg, s, req), r.value, req, k);
    } else if req.OpenUpload? {
      OpenAnswers(cfg, s, req, s1, r.value);
      assert SameKey(s1, Serve(cfg, s, req), k);
    } else if req.Mount? {
      MountedRecord(cfg, s, req, s1, r.value, k);
    } else {
      PushedRecord(cfg, s, req, s1, r.value, k);
    }
  }

  lemma MountedRecord(cfg: Config, s: Data, req: Request, s1: Data, r: RepoId, k: Key)
    requires req.Mount? && Intern(s, req.repo) == (s1, Some(r)) && k.M?
    ensures SameKey(s, Serve(cfg, s, req), k)
  {
    InternKeepsRecords(s, req.repo, k);
    if Batch(cfg, s, req).Some? { CommitLands(s1, r, req.digest, SizeOf(s1, req.digest), req.now, k); }
  }

  lemma PushedRecord(cfg: Config, s: Data, req: Request, s1: Data, r: RepoId, k: Key)
    requires req.PutManifest? && Intern(s, req.repo) == (s1, Some(r)) && k.M?
    ensures RecordMoves(cfg, s, Serve(cfg, s, req), req, k)
  {
    InternKeepsRecords(s, req.repo, k);
    PushAnswers(cfg, s, req, s1, r);
    if Pushable(cfg, s1, r, req.digest, req.claimed, req.tags) {
      assert PushAnswer(cfg, s1, Serve(cfg, s, req), r, req.digest, Elements(req.tags), req.now, k);
    }
  }

  lemma CallMovesRecord(cfg: Config, s: Data, req: Request, k: Key)
    requires Inv(cfg, s) && k.M?
    ensures RecordMoves(cfg, s, Serve(cfg, s, req), req, k)
  {
    if Interns(req) { InterningRecord(cfg, s, req, k); }
    else if req.SaveUpload? || req.EndUpload? { SessionAnswers(cfg, s, req); }
    else if IdOf(s, req.repo).None? { assert Serve(cfg, s, req) == s; }
    else { NamedCallRecord(cfg, s, req, IdOf(s, req.repo).value, k); }
  }

  lemma NamedCallRecord(cfg: Config, s: Data, req: Request, r: RepoId, k: Key)
    requires Inv(cfg, s) && k.M? && !Interns(req) && !req.SaveUpload? && !req.EndUpload? && IdOf(s, req.repo) == Some(r)
    ensures RecordMoves(cfg, s, Serve(cfg, s, req), req, k)
  {
    var s' := Serve(cfg, s, req);
    if req.RemoveBlob? {
      RemoveBlobAnswers(cfg, s, req);
      assert s' == s || RemoveBlobAnswer(s, s', r, req.digest, k);
    } else if req.RemoveManifest? || req.PurgeManifest? {
      if req.RemoveManifest? { RemoveAnswers(cfg, s, req); } else { PurgeAnswers(cfg, s, req); }
      assert s' == s || RemoveAnswer(cfg, s, s', r, req.digest, req.now, k);
    } else if req.Retag? {
      RetagAnswers(cfg, s, req);
      assert s' == s || RetagAnswer(cfg, s, s', r, req.tag, req.digest, req.now, k);
    } else if req.Untag? {
      UntagAnswers(cfg, s, req);
      assert s' == s || DropEntry(cfg, s, s', r, TagAt(s, r, req.tag).value, {req.tag}, req.now, false, k);
    } else if req.CountPulls? {
      CountAnswers(cfg, s, req);
    } else if req.DropRepo? {
      DropAnswers(cfg, s, req);
      assert DropAnswer(s, s', req.repo, r, k);
    } else {
      RetireAnswers(cfg, s, req);
    }
  }

  lemma UpkeepKeepsRecord(cfg: Config, grace: nat, s: Sys, step: Step, s': Sys, k: Key)
    requires Next(cfg, grace, s, step, s') && !step.Call? && k.M?
    ensures SameKey(s.store, s'.store, k) || (step.FinishRepo? && k !in s'.store)
  {}

  /** The step pushed this manifest under this id, and its record is the one the push wrote. */
  ghost predicate PushedAt(cfg: Config, s: Sys, step: Step, r: RepoId, d: Digest, rec: Val) {
    && step.Call? && step.req.PutManifest? && step.req.digest == d && Intern(s.store, step.req.repo).1 == Some(r)
    && Pushable(cfg, Intern(s.store, step.req.repo).0, r, d, step.req.claimed, step.req.tags)
    && IsRecord(cfg, d, step.req.now, rec)
  }

  /**
   Behind every stored manifest is a push of it that went ahead - by its own digest, if by any -
   and its record is that push's, stamp included.
   */
  lemma {:induction false} StoredWasPushed(cfg: Config, grace: nat, states: seq<Sys>, steps: seq<Step>, i: nat, r: RepoId, d: Digest) returns (j: nat)
    requires IsRun(cfg, grace, states, steps) && i < |states| && M(r, d) in states[i].store
    ensures j < i && (var pushed := PushedAt(cfg, states[j], steps[j], r, d, states[i].store[M(r, d)]); pushed)
  {
    var kept := RecordAt(cfg, grace, states, steps, i, r, d);
    if kept { j := StoredWasPushed(cfg, grace, states, steps, i - 1, r, d); } else { j := i - 1; }
  }

  lemma RecordAt(cfg: Config, grace: nat, states: seq<Sys>, steps: seq<Step>, i: nat, r: RepoId, d: Digest) returns (kept: bool)
    requires IsRun(cfg, grace, states, steps) && i < |states| && M(r, d) in states[i].store
    ensures i > 0
    ensures kept ==> M(r, d) in states[i - 1].store && states[i - 1].store[M(r, d)] == states[i].store[M(r, d)]
    ensures !kept ==> (var pushed := PushedAt(cfg, states[i - 1], steps[i - 1], r, d, states[i].store[M(r, d)]); pushed)
  {
    if i == 0 { return true; }
    ReachableInv(cfg, grace, states, steps, i - 1);
    assert StepAt(cfg, grace, states, steps, i - 1);
    kept := RecordStep(cfg, grace, states[i - 1], steps[i - 1], states[i], r, d);
  }

  lemma RecordStep(cfg: Config, grace: nat, s: Sys, step: Step, s': Sys, r: RepoId, d: Digest) returns (kept: bool)
    requires SysInv(cfg, s) && Next(cfg, grace, s, step, s') && M(r, d) in s'.store
    ensures kept ==> SameKey(s.store, s'.store, M(r, d))
    ensures !kept ==> (var pushed := PushedAt(cfg, s, step, r, d, s'.store[M(r, d)]); pushed)
  {
    kept := M(r, d) in s.store && s'.store[M(r, d)] == s.store[M(r, d)];
    if step.Call? { CallMovesRecord(cfg, s.store, step.req, M(r, d)); } else { UpkeepKeepsRecord(cfg, grace, s, step, s', M(r, d)); }
  }

  // --- purged manifests -------------------------------------------------

  /**
   A manifest that goes in a purge step is the one the step names, and nothing needed it: no tag,
   no index, no live subject, and the push behind its record is older than the step allows.
   */
  lemma PurgedWasUnneeded(cfg: Config, grace: nat, states: seq<Sys>, steps: seq<Step>, i: nat, r: RepoId, d: Digest) returns (j: nat)
    requires IsRun(cfg, grace, states, steps) && i < |steps| && steps[i].Call? && steps[i].req.PurgeManifest?
    requires M(r, d) in states[i].store && M(r, d) !in states[i + 1].store
    ensures IdOf(states[i].store, steps[i].req.repo) == Some(r) && steps[i].req.digest == d
    ensures Unneeded(states[i].store, r, d, steps[i].req.pushedBefore)
    ensures j < i && (var pushed := PushedAt(cfg, states[j], steps[j], r, d, states[i].store[M(r, d)]); pushed)
    ensures steps[j].Call? && steps[j].req.PutManifest? && steps[j].req.now < (steps[i].req.pushedBefore + 1) * 1000
  {
    ReachableInv(cfg, grace, states, steps, i);
    assert StepAt(cfg, grace, states, steps, i);
    CallMovesRecord(cfg, states[i].store, steps[i].req, M(r, d));
    PurgeAnswers(cfg, states[i].store, steps[i].req);
    j := StoredWasPushed(cfg, grace, states, steps, i, r, d);
    PushIsOld(cfg, states[j], steps[j], r, d, states[i].store[M(r, d)], steps[i].req.pushedBefore);
  }

  lemma PushIsOld(cfg: Config, s: Sys, step: Step, r: RepoId, d: Digest, rec: Val, before: nat)
    requires PushedAt(cfg, s, step, r, d, rec) && rec.pushedAt <= before
    ensures step.Call? && step.req.PutManifest? && step.req.now < (before + 1) * 1000
  {}

  // --- retired names ----------------------------------------------------

  /**
   With the watermark a reading of the counter at state `k`, a retirement releases only an id in
   use by then: a name first interned after the reading survives every such step.
   */
  lemma RetirementRespectsTheWatermark(cfg: Config, grace: nat, states: seq<Sys>, steps: seq<Step>, k: nat, i: nat, name: Name)
    requires IsRun(cfg, grace, states, steps) && k <= i < |steps| && steps[i].Call? && steps[i].req.RetireRepo?
    requires steps[i].req.watermark == NextId(states[k].store) && N(name) in states[i].store
    ensures states[i].store[N(name)].IdV?
    ensures N(name) !in states[i + 1].store ==> name == steps[i].req.repo && Interned(states, k, states[i].store[N(name)].id)
    ensures !Interned(states, k, states[i].store[N(name)].id) ==> SameKey(states[i].store, states[i + 1].store, N(name))
  {
    ReachableInv(cfg, grace, states, steps, i);
    assert StepAt(cfg, grace, states, steps, i);
    var s, id := states[i].store, states[i].store[N(name)].id;
    RetireAnswers(cfg, s, steps[i].req);
    WatermarkIsExact(cfg, grace, states, steps, k, id);
    RetireSpares(cfg, s, steps[i].req, name);
  }

  lemma RetireSpares(cfg: Config, s: Data, req: Request, name: Name)
    requires req.RetireRepo? && N(name) in s && s[N(name)].IdV?
    ensures N(name) in Serve(cfg, s, req) ==> SameKey(s, Serve(cfg, s, req), N(name))
    ensures N(name) !in Serve(cfg, s, req) ==> name == req.repo && s[N(name)].id < req.watermark
  {
    RetireAnswers(cfg, s, req);
  }

  // --- blob records -----------------------------------------------------

  ghost predicate BlobsTyped(s: Data) { forall d: Digest :: B(d) in s ==> s[B(d)].BlobV? }

  lemma EffectTypesBlobs(s: Data, e: Effect)
    requires BlobsTyped(s) && forall k :: k in e.puts && k.B? ==> e.puts[k].BlobV?
    ensures BlobsTyped(Perform(s, e))
  {
    forall d: Digest | B(d) in Perform(s, e) ensures Perform(s, e)[B(d)].BlobV? { PerformAt(s, e, B(d)); }
  }

  lemma PlanTypesBlobs(cfg: Config, s: Data, r: RepoId, req: Request)
    requires BlobsTyped(s) && Plan(cfg, s, r, req).Some?
    ensures var typed := BlobsTyped(Perform(s, Plan(cfg, s, r, req).value)); typed
  {
    if req.PutManifest? {
      PushPlanIsPushed(cfg, s, r, req);
      PushTypesBlobs(cfg, s, Perform(s, Plan(cfg, s, r, req).value), r, req.digest, Elements(req.tags), req.now);
    } else if req.RemoveManifest? || req.PurgeManifest? {
      var e := Plan(cfg, s, r, req).value;
      forall k | k in e.puts ensures !k.B? { TagEventsAt(r, TagsPointingAt(s, r, req.digest), req.digest, req.now, Deleted, k); }
      EffectTypesBlobs(s, e);
    } else {
      EffectTypesBlobs(s, Plan(cfg, s, r, req).value);
    }
  }

  lemma PushTypesBlobs(cfg: Config, s: Data, s': Data, r: RepoId, d: Digest, tags: set<Tag>, now: Millis)
    requires BlobsTyped(s) && Pushed(cfg, s, s', r, d, tags, now)
    ensures BlobsTyped(s')
  {
    forall b: Digest ensures SameKey(s, s', B(b)) {}
  }

  lemma ServeTypesBlobs(cfg: Config, s: Data, req: Request)
    requires BlobsTyped(s)
    ensures BlobsTyped(Serve(cfg, s, req))
  {
    forall d: Digest ensures SameKey(s, Arrive(s, req).0, B(d)) {}
    assert BlobsTyped(Arrive(s, req).0);
    if Batch(cfg, s, req).Some? { PlanTypesBlobs(cfg, Arrive(s, req).0, Arrive(s, req).1.value, req); }
  }

  lemma UpkeepTypesBlobs(cfg: Config, grace: nat, s: Sys, step: Step, s': Sys)
    requires Next(cfg, grace, s, step, s') && !step.Call? && BlobsTyped(s.store)
    ensures BlobsTyped(s'.store)
  {
    forall d: Digest | B(d) in s'.store ensures SameKey(s.store, s'.store, B(d)) {}
  }

  lemma {:induction false} BlobsTypedAt(cfg: Config, grace: nat, states: seq<Sys>, steps: seq<Step>, i: nat)
    requires IsRun(cfg, grace, states, steps) && i < |states|
    ensures BlobsTyped(states[i].store)
  {
    if i > 0 {
      BlobsTypedAt(cfg, grace, states, steps, i - 1);
      assert StepAt(cfg, grace, states, steps, i - 1);
      if steps[i - 1].Call? { ServeTypesBlobs(cfg, states[i - 1].store, steps[i - 1].req); }
      else { UpkeepTypesBlobs(cfg, grace, states[i - 1], steps[i - 1], states[i]); }
    }
  }

  /** In every run a mount leaves the blob's own record exactly as it was, for every repository. */
  lemma MountsKeepTheRecord(cfg: Config, grace: nat, states: seq<Sys>, steps: seq<Step>, i: nat, d: Digest)
    requires IsRun(cfg, grace, states, steps) && i < |steps| && steps[i].Call? && steps[i].req.Mount?
    ensures SameKey(states[i].store, states[i + 1].store, B(d))
  {
    BlobsTypedAt(cfg, grace, states, steps, i);
    assert StepAt(cfg, grace, states, steps, i);
    var s, req := states[i].store, steps[i].req;
    var (s1, r) := Intern(s, req.repo);
    InternKeepsRecords(s, req.repo, B(d));
    if r.None? {
      ExhaustedAnswers(cfg, s, req);
    } else {
      MountAnswers(cfg, s, req, s1, r.value);
      assert Offered(s, req.from, req.digest) ==> Lands(s1, Serve(cfg, s, req), r.value, req.digest, s[B(req.digest)].size, req.now, B(d));
    }
  }
}
