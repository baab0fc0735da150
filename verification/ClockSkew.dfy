/**
 Why purge safety needs its clock hypothesis. A pass reads its clock once; a commit that lands
 between its two walks carries a later stamp than the mark the pass then places, and the next
 pass finds the mark mature while the membership is still young.
 */
module ClockSkew {
  import opened Results
  import opened Paging
  import opened Keys
  import opened Store
  import opened Interner
  import opened Registry
  import opened Requests
  import opened System
  import opened Runs

  const Repo: Name := [97]

  /** One repository holding one blob it has uploaded and not yet referenced. */
  function Held(d: Digest): Data {
    map[N(Repo) := IdV(0), I(0) := NameV(Repo), I(RESERVED_ID) := IdV(1), B(d) := BlobV(5), P(0, d) := MemberV(5, 105)]
  }

  function HeldAndMarked(d: Digest): Data {
    Held(d)[C(d) := MarkV(100)]
  }

  lemma CommitHolds(cfg: Config, d: Digest)
    ensures Serve(cfg, map[], Commit(Repo, d, 5, None, 105_000)) == Held(d)
  {
    var s1 := Allocate(map[], 0, Repo);
    assert Arrive(map[], Commit(Repo, d, 5, None, 105_000)) == (s1, Some(0));
    assert Perform(s1, CommitBlob(s1, 0, d, 5, 105_000)) == Held(d);
  }

  lemma EmptyPage(g: Range)
    ensures IsPage(Before, Pool(map[], g), None, 1, Page([], None))
  {}

  lemma OnlyKey(s: Data, g: Range, k: Key)
    requires Pool(s, g) == {k}
    ensures IsPage(Before, Pool(s, g), None, 1, Page([k], None))
  {
    assert k in Pool(s, g);
  }

  lemma NobodySwept(d: Digest)
    ensures Perform(map[], SweepMembers(map[], Elements([]), 90)) == map[]
    ensures Perform(HeldAndMarked(d), SweepMembers(HeldAndMarked(d), Elements([P(0, d)]), 100)) == HeldAndMarked(d)
  {
    var s := HeldAndMarked(d);
    forall k | k in Elements([P(0, d)]) ensures !Stale(s, k, 100) {}
    assert SweepMembers(s, Elements([P(0, d)]), 100).dels == {};
  }

  lemma ScanPlaces(s: Data, d: Digest, now: Millis, cutoff: nat)
    requires C(d) !in s && !Referenced(s, d)
    ensures Perform(s, ScanBlobs(s, {d}, now)) == s[C(d) := MarkV(Secs(now))]
    ensures MarkedBy(s, {d}) == {d} && RipeIn(s, {d}, cutoff) == {}
  {
    assert ScanBlobs(s, {d}, now).dels == {} && ScanBlobs(s, {d}, now).puts == map[C(d) := MarkV(Secs(now))];
  }

  lemma ScanFindsRipe(s: Data, d: Digest, now: Millis, cutoff: nat)
    requires Ripe(s, d, cutoff)
    ensures Perform(s, ScanBlobs(s, {d}, now)) == s
    ensures MarkedBy(s, {d}) == {} && RipeIn(s, {d}, cutoff) == {d}
  {
    assert ScanBlobs(s, {d}, now).dels == {} && ScanBlobs(s, {d}, now).puts == map[];
  }

  lemma OneBlob(d: Digest)
    ensures BlobsOf([B(d)]) == {d}
  {
    assert B(d) in [B(d)] && B(d).digest in BlobsOf([B(d)]);
  }

  lemma Stores(d: Digest)
    ensures var none: set<Digest> := {}; none + {d} == {d} && none + none == none && {d} - {d} == none
    ensures Pool(Held(d), Blobs) == {B(d)} && Pool(HeldAndMarked(d), Blobs) == {B(d)} && Pool(HeldAndMarked(d), Members) == {P(0, d)}
    ensures !Referenced(Held(d), d) && C(d) !in Held(d)
    ensures Ripe(HeldAndMarked(d), d, 100)
  {
    assert !Referenced(HeldAndMarked(d), d);
  }

  function First(members: Walk<Key>, blobs: Walk<Key>, marked: set<Digest>): Option<Pass> {
    Some(Pass(100_000, 90, members, blobs, {}, marked))
  }

  function Second(members: Walk<Key>, blobs: Walk<Key>, ripe: set<Digest>): Option<Pass> {
    Some(Pass(110_000, 100, members, blobs, ripe, {}))
  }

  function Collected(d: Digest): Data {
    Perform(HeldAndMarked(d), Effect({B(d), C(d)}, map[]))
  }

  function SkewStates(d: Digest): seq<Sys> {
    [Boot,
     Sys(map[], First(At(None), At(None), {}), None),
     Sys(map[], First(Done, At(None), {}), None),
     Sys(Held(d), First(Done, At(None), {}), None),
     Sys(HeldAndMarked(d), First(Done, Done, {d}), None),
     Sys(HeldAndMarked(d), None, None),
     Sys(HeldAndMarked(d), Second(At(None), At(None), {}), None),
     Sys(HeldAndMarked(d), Second(Done, At(None), {}), None),
     Sys(HeldAndMarked(d), Second(Done, Done, {d}), None),
     Sys(Collected(d), Second(Done, Done, {}), None)]
  }

  function SkewSteps(d: Digest): seq<Step> {
    [BeginPass(100_000),
     MemberPage(1, Page([], None)),
     Call(Commit(Repo, d, 5, None, 105_000)),
     BlobPage(1, Page([B(d)], None)),
     EndPass,
     BeginPass(110_000),
     MemberPage(1, Page([P(0, d)], None)),
     BlobPage(1, Page([B(d)], None)),
     Collect(d)]
  }

  lemma NothingToSweep(cfg: Config, d: Digest)
    ensures Next(cfg, 10, Sys(map[], First(At(None), At(None), {}), None), MemberPage(1, Page([], None)),
                 Sys(map[], First(Done, At(None), {}), None))
  {
    EmptyPage(Members);
    NobodySwept(d);
  }

  lemma CommitBetweenWalks(cfg: Config, d: Digest)
    ensures Next(cfg, 10, Sys(map[], First(Done, At(None), {}), None), Call(Commit(Repo, d, 5, None, 105_000)),
                 Sys(Held(d), First(Done, At(None), {}), None))
  {
    CommitHolds(cfg, d);
  }

  lemma MarkingScan(cfg: Config, d: Digest)
    ensures Next(cfg, 10, Sys(Held(d), First(Done, At(None), {}), None), BlobPage(1, Page([B(d)], None)),
                 Sys(HeldAndMarked(d), First(Done, Done, {d}), None))
  {
    Stores(d);
    OnlyKey(Held(d), Blobs, B(d));
    OneBlob(d);
    ScanPlaces(Held(d), d, 100_000, 90);
  }

  lemma SweepSparesTheYoung(cfg: Config, d: Digest)
    ensures Next(cfg, 10, Sys(HeldAndMarked(d), Second(At(None), At(None), {}), None), MemberPage(1, Page([P(0, d)], None)),
                 Sys(HeldAndMarked(d), Second(Done, At(None), {}), None))
  {
    Stores(d);
    OnlyKey(HeldAndMarked(d), Members, P(0, d));
    NobodySwept(d);
  }

  lemma RipeScan(cfg: Config, d: Digest)
    ensures Next(cfg, 10, Sys(HeldAndMarked(d), Second(Done, At(None), {}), None), BlobPage(1, Page([B(d)], None)),
                 Sys(HeldAndMarked(d), Second(Done, Done, {d}), None))
  {
    Stores(d);
    OnlyKey(HeldAndMarked(d), Blobs, B(d));
    OneBlob(d);
    ScanFindsRipe(HeldAndMarked(d), d, 110_000, 100);
  }

  lemma Collection(cfg: Config, d: Digest)
    ensures Next(cfg, 10, Sys(HeldAndMarked(d), Second(Done, Done, {d}), None), Collect(d),
                 Sys(Collected(d), Second(Done, Done, {}), None))
  {
    Stores(d);
  }

  /**
   Ten seconds of grace, and a commit five seconds after the marking pass read its clock: for any
   blob there is a run that collects it while a repository still holds it.
   */
  lemma SafetyNeedsTheClock(cfg: Config, d: Digest)
    ensures IsRun(cfg, 10, SkewStates(d), SkewSteps(d))
    ensures Collects(SkewStates(d), SkewSteps(d), 8, d)
    ensures !Unheld(SkewStates(d)[8].store, d) && !TimelyMark(SkewStates(d)[3], SkewSteps(d)[3], d)
  {
    var states, steps := SkewStates(d), SkewSteps(d);
    forall i | 0 <= i < |steps| ensures StepAt(cfg, 10, states, steps, i) { SkewStepAt(cfg, d, i); }
    Stores(d);
    OneBlob(d);
    assert P(0, d) in Held(d) && P(0, d) in HeldAndMarked(d);
    ScanPlaces(Held(d), d, 100_000, 90);
  }

  lemma ClockSteps(cfg: Config, d: Digest)
    ensures Next(cfg, 10, Boot, BeginPass(100_000), Sys(map[], First(At(None), At(None), {}), None))
    ensures Next(cfg, 10, Sys(HeldAndMarked(d), First(Done, Done, {d}), None), EndPass, Sys(HeldAndMarked(d), None, None))
    ensures Next(cfg, 10, Sys(HeldAndMarked(d), None, None), BeginPass(110_000),
                 Sys(HeldAndMarked(d), Second(At(None), At(None), {}), None))
  {}

  lemma SkewStepAt(cfg: Config, d: Digest, i: nat)
    requires i < 9
    ensures StepAt(cfg, 10, SkewStates(d), SkewSteps(d), i)
  {
    if i < 4 { MarkingStepAt(cfg, d, i); } else { CollectingStepAt(cfg, d, i); }
  }

  lemma MarkingStepAt(cfg: Config, d: Digest, i: nat)
    requires i < 4
    ensures StepAt(cfg, 10, SkewStates(d), SkewSteps(d), i)
  {
    if i == 0 { FirstStepAt(cfg, d); }
    else if i == 1 { SweepStepAt(cfg, d); }
    else if i == 2 { CommitStepAt(cfg, d); }
    else { ScanStepAt(cfg, d); }
  }

  lemma FirstStepAt(cfg: Config, d: Digest)
    ensures StepAt(cfg, 10, SkewStates(d), SkewSteps(d), 0)
  {
    ClockSteps(cfg, d);
  }

  lemma SweepStepAt(cfg: Config, d: Digest)
    ensures StepAt(cfg, 10, SkewStates(d), SkewSteps(d), 1)
  {
    NothingToSweep(cfg, d);
  }

  lemma ScanStepAt(cfg: Config, d: Digest)
    ensures StepAt(cfg, 10, SkewStates(d), SkewSteps(d), 3)
  {
    MarkingScan(cfg, d);
  }

  lemma CommitStepAt(cfg: Config, d: Digest)
    ensures StepAt(cfg, 10, SkewStates(d), SkewSteps(d), 2)
  {
    var states, steps := SkewStates(d), SkewSteps(d);
    assert steps[2] == Call(Commit(Repo, d, 5, None, 105_000));
    assert states[2] == Sys(map[], First(Done, At(None), {}), None);
    CommitBetweenWalks(cfg, d);
  }

  lemma CollectingStepAt(cfg: Config, d: Digest, i: nat)
    requires 4 <= i < 9
    ensures StepAt(cfg, 10, SkewStates(d), SkewSteps(d), i)
  {
    if i == 6 { SweepSparesTheYoung(cfg, d); }
    else if i == 7 { RipeScan(cfg, d); }
    else if i == 8 { Collection(cfg, d); }
    else { ClockSteps(cfg, d); }
  }
}
