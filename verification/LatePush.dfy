/**
 A straggler as it happens: a layer is uploaded, a manifest naming it is planned while the
 repository is live, and the repository is dropped and swept before the batch is applied - either
 once the sweep has gone by, or after it has finished.
 */
module LatePush {
  import opened Results
  import opened Paging
  import opened Keys
  import opened Store
  import opened Registry
  import opened Requests
  import opened System
  import opened Runs
  import opened ClockSkew
  import opened WipedHolder
  import opened Stragglers

  function Tombstoned(b: Digest): Data {
    map[I(RESERVED_ID) := IdV(1), B(b) := BlobV(5), P(0, b) := MemberV(5, 100), Dead(0) := DeadV(Repo)]
  }

  function Bare(b: Digest): Data {
    map[I(RESERVED_ID) := IdV(1), B(b) := BlobV(5)]
  }

  function DropStates(b: Digest): seq<Sys> {
    [Boot,
     Sys(Uploaded(b), None, None),
     Sys(Tombstoned(b), None, None),
     Sys(Tombstoned(b), None, Some(Sweep(0, At(None)))),
     Sys(Tombstoned(b), None, Some(Sweep(0, Done))),
     Sys(Bare(b), None, None)]
  }

  function DropSteps(b: Digest): seq<Step> {
    [Call(Commit(Repo, b, 5, None, 100_000)), Call(DropRepo(Repo)), BeginSweep(0), SweepPage(1, Page([], None)), FinishRepo]
  }

  lemma DropCall(cfg: Config, b: Digest)
    ensures Serve(cfg, Uploaded(b), DropRepo(Repo)) == Tombstoned(b)
  {
    assert Arrive(Uploaded(b), DropRepo(Repo)) == (Uploaded(b), Some(0));
    assert Perform(Uploaded(b), Tombstone(Uploaded(b), Repo, 0)) == Tombstoned(b);
  }

  lemma CallSteps(cfg: Config, b: Digest)
    ensures StepAt(cfg, 10, DropStates(b), DropSteps(b), 0) && StepAt(cfg, 10, DropStates(b), DropSteps(b), 1)
  {
    var states, steps := DropStates(b), DropSteps(b);
    assert steps[0] == Call(Commit(Repo, b, 5, None, 100_000)) && steps[1] == Call(DropRepo(Repo));
    assert states[1] == Sys(Uploaded(b), None, None) && states[2] == Sys(Tombstoned(b), None, None);
    Upload(cfg, b);
    DropCall(cfg, b);
  }

  lemma BeginStep(cfg: Config, b: Digest)
    ensures StepAt(cfg, 10, DropStates(b), DropSteps(b), 2)
  {}

  lemma PageStep(cfg: Config, b: Digest)
    ensures StepAt(cfg, 10, DropStates(b), DropSteps(b), 3)
  {
    assert Pool(Tombstoned(b), ManifestsIn(0)) == {};
    NoKeys(Tombstoned(b), ManifestsIn(0));
    assert SweepRefs(Tombstoned(b), 0, ManifestsOf([])).dels == {};
    assert Perform(Tombstoned(b), SweepRefs(Tombstoned(b), 0, ManifestsOf([]))) == Tombstoned(b);
  }

  lemma FinishStep(cfg: Config, b: Digest)
    ensures StepAt(cfg, 10, DropStates(b), DropSteps(b), 4)
  {
    assert FinishSweep(Tombstoned(b), 0) == Bare(b);
  }

  lemma DropRun(cfg: Config, b: Digest)
    ensures var run := IsRun(cfg, 10, DropStates(b), DropSteps(b)); run
  {
    CallSteps(cfg, b);
    BeginStep(cfg, b);
    PageStep(cfg, b);
    FinishStep(cfg, b);
    forall i | 0 <= i < |DropSteps(b)| ensures StepAt(cfg, 10, DropStates(b), DropSteps(b), i) {}
  }

  /** The plan reads a live repository that holds the one layer the manifest names. */
  lemma PlanReadsTheLayer(cfg: Config, d: Digest, b: Digest, size: nat)
    requires cfg.doc(d).blobs == [Descriptor(b, size, false)] && cfg.doc(d).children == []
    ensures PushRefusal(cfg, Uploaded(b), 0, d, None, []).None? && LinkedAt(cfg, Uploaded(b), 0, d) == {b}
  {
    var blobs := cfg.doc(d).blobs;
    assert Present(Uploaded(b), 0, blobs[0].digest);
    assert FirstMissingBlob(Uploaded(b), 0, blobs[1..]).None?;
  }

  /**
   Both windows are real: the batch planned at state 1 can be applied at state 4, when the sweep
   has gone by its manifest, or at state 5, when the sweep has finished. Either way the layer's
   edge outlives the repository.
   */
  lemma LatePushHappens(cfg: Config, d: Digest, b: Digest, size: nat)
    requires cfg.doc(d).blobs == [Descriptor(b, size, false)] && cfg.doc(d).children == []
    ensures forall q :: 4 <= q <= 5 ==> Planned(cfg, 10, DropStates(b), DropSteps(b), 1, q, 0, d, None, [])
    ensures LinkedAt(cfg, DropStates(b)[1].store, 0, d) == {b}
    ensures Dead(0) in DropStates(b)[4].store && GoneBy(DropStates(b)[4], 0, d)
    ensures Released(DropStates(b)[5].store, 0) && B(b) in DropStates(b)[5].store
  {
    DropRun(cfg, b);
    PlanReadsTheLayer(cfg, d, b, size);
  }

  /** So after the sweep, and after anything else that may happen, the layer is still pinned. */
  lemma LatePushPins(cfg: Config, d: Digest, b: Digest, size: nat, now: Millis, later: seq<Sys>, more: seq<Step>, i: nat)
    requires cfg.doc(d).blobs == [Descriptor(b, size, false)] && cfg.doc(d).children == []
    requires Onward(cfg, 10, later, more) && i < |later|
    requires later[0] == Arrived(cfg, DropStates(b)[1].store, DropStates(b)[5], 0, d, [], now)
    ensures R(b, 0, d) in later[i].store && B(b) in later[i].store && I(0) !in later[i].store && Dead(0) !in later[i].store
  {
    LatePushHappens(cfg, d, b, size);
    StragglerPinsItsLayers(cfg, 10, DropStates(b), DropSteps(b), 1, 5, 0, d, None, [], now, later, more, i);
  }

  // --- a retirement between plan and apply ------------------------------

  function Emptied(b: Digest): Data {
    map[N(Repo) := IdV(0), I(0) := NameV(Repo), I(RESERVED_ID) := IdV(1), B(b) := BlobV(5)]
  }

  function Retiring(): Request { RetireRepo(Repo, {}, 1) }

  function RetireStates(b: Digest): seq<Sys> {
    [Boot, Sys(Uploaded(b), None, None), Sys(Emptied(b), None, None), Sys(Bare(b), None, None)]
  }

  function RetireSteps(b: Digest): seq<Step> {
    [Call(Commit(Repo, b, 5, None, 100_000)), Call(RemoveBlob(Repo, b)), Call(Retiring())]
  }

  lemma RemovalEmpties(cfg: Config, b: Digest)
    ensures Serve(cfg, Uploaded(b), RemoveBlob(Repo, b)) == Emptied(b)
  {
    var s := Uploaded(b);
    assert Arrive(s, RemoveBlob(Repo, b)) == (s, Some(0));
    assert Pool(s, RefsIn(b, 0)) == {};
    assert Perform(s, Effect({} + {P(0, b), C(b)}, map[])) == Emptied(b);
  }

  lemma EmptiedIsEmpty(b: Digest)
    ensures RepoIsEmpty(Emptied(b), 0, {})
  {
    NamesAloneAreEmpty(Emptied(b), 0);
  }

  lemma NamesAloneAreEmpty(s: Data, r: RepoId)
    requires forall k :: k in s ==> k.N? || k.I? || k.B?
    ensures RepoIsEmpty(s, r, {})
  {}

  lemma RetirementReleases(cfg: Config, b: Digest)
    ensures Serve(cfg, Emptied(b), Retiring()) == Bare(b)
  {
    RetirePlan(cfg, b);
    assert Arrive(Emptied(b), Retiring()) == (Emptied(b), Some(0));
    ServeApplies(cfg, Emptied(b), Retiring(), Emptied(b), 0, Effect({N(Repo), I(0)}, map[]));
    ReleasedStore(b);
  }

  lemma RetirePlan(cfg: Config, b: Digest)
    ensures var planned := Plan(cfg, Emptied(b), 0, Retiring()) == Some(Effect({N(Repo), I(0)}, map[])); planned
  {
    EmptiedIsEmpty(b);
    assert Retire(Emptied(b), Repo, {}, 1) == Some(Effect({N(Repo), I(0)}, map[]));
  }

  lemma ReleasedStore(b: Digest)
    ensures Perform(Emptied(b), Effect({N(Repo), I(0)}, map[])) == Bare(b)
  {}

  lemma RetireStepAt(cfg: Config, b: Digest, i: nat)
    requires i < 3
    ensures StepAt(cfg, 10, RetireStates(b), RetireSteps(b), i)
  {
    var states, steps := RetireStates(b), RetireSteps(b);
    assert states[1] == Sys(Uploaded(b), None, None) && states[2] == Sys(Emptied(b), None, None) && states[3] == Sys(Bare(b), None, None);
    if i == 0 { Upload(cfg, b); } else if i == 1 { RemovalEmpties(cfg, b); } else { RetirementReleases(cfg, b); }
  }

  lemma RetireRun(cfg: Config, b: Digest)
    ensures var run := IsRun(cfg, 10, RetireStates(b), RetireSteps(b)); run
  {
    forall i | 0 <= i < |RetireSteps(b)| ensures StepAt(cfg, 10, RetireStates(b), RetireSteps(b), i) { RetireStepAt(cfg, b, i); }
  }

  /**
   An id can be released without any sweep: the layer is deleted, the name found empty and retired.
   A batch planned before that and applied after it is a straggler too.
   */
  lemma RetirementStraggles(cfg: Config, d: Digest, b: Digest, size: nat)
    requires cfg.doc(d).blobs == [Descriptor(b, size, false)] && cfg.doc(d).children == []
    ensures Planned(cfg, 10, RetireStates(b), RetireSteps(b), 1, 3, 0, d, None, []) && LinkedAt(cfg, RetireStates(b)[1].store, 0, d) == {b}
    ensures RetireSteps(b)[2] == Call(Retiring()) && Released(RetireStates(b)[3].store, 0) && B(b) in RetireStates(b)[3].store
  {
    RetireRun(cfg, b);
    PlanReadsTheLayer(cfg, d, b, size);
  }

  /** And its layer is pinned just the same. */
  lemma RetirementPins(cfg: Config, d: Digest, b: Digest, size: nat, now: Millis, later: seq<Sys>, more: seq<Step>, i: nat)
    requires cfg.doc(d).blobs == [Descriptor(b, size, false)] && cfg.doc(d).children == []
    requires Onward(cfg, 10, later, more) && i < |later|
    requires later[0] == Arrived(cfg, RetireStates(b)[1].store, RetireStates(b)[3], 0, d, [], now)
    ensures R(b, 0, d) in later[i].store && B(b) in later[i].store && I(0) !in later[i].store && Dead(0) !in later[i].store
  {
    RetirementStraggles(cfg, d, b, size);
    StragglerPinsItsLayers(cfg, 10, RetireStates(b), RetireSteps(b), 1, 3, 0, d, None, [], now, later, more, i);
  }
}
