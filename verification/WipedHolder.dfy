/**
 What the quiet interval does not exclude. Wiping a dropped repository takes its memberships
 without enumerating them, so no mark is cleared: a blob can be collected on a clock that ran
 while a repository still held it, a moment after that repository's sweep finished.
 */
module WipedHolder {
  import opened Results
  import opened Paging
  import opened Keys
  import opened Store
  import opened Interner
  import opened Registry
  import opened Requests
  import opened System
  import opened Runs
  import opened ClockSkew

  function Uploaded(d: Digest): Data {
    map[N(Repo) := IdV(0), I(0) := NameV(Repo), I(RESERVED_ID) := IdV(1), B(d) := BlobV(5), P(0, d) := MemberV(5, 100)]
  }

  function Noticed(d: Digest): Data {
    Uploaded(d)[C(d) := MarkV(105)]
  }

  /** The name is gone and the sweep is on record; the membership and the mark are still there. */
  function Dropped(d: Digest): Data {
    map[I(RESERVED_ID) := IdV(1), B(d) := BlobV(5), P(0, d) := MemberV(5, 100), C(d) := MarkV(105), Dead(0) := DeadV(Repo)]
  }

  function Wiped(d: Digest): Data {
    map[I(RESERVED_ID) := IdV(1), B(d) := BlobV(5), C(d) := MarkV(105)]
  }

  function Reclaimed(d: Digest): Data {
    Perform(Wiped(d), Effect({B(d), C(d)}, map[]))
  }

  function Marking(members: Walk<Key>, blobs: Walk<Key>, marked: set<Digest>): Option<Pass> {
    Some(Pass(105_000, 95, members, blobs, {}, marked))
  }

  function Collecting(members: Walk<Key>, blobs: Walk<Key>, ripe: set<Digest>): Option<Pass> {
    Some(Pass(115_000, 105, members, blobs, ripe, {}))
  }

  function WipeStates(d: Digest): seq<Sys> {
    [Boot,
     Sys(Uploaded(d), None, None),
     Sys(Uploaded(d), Marking(At(None), At(None), {}), None),
     Sys(Uploaded(d), Marking(Done, At(None), {}), None),
     Sys(Noticed(d), Marking(Done, Done, {d}), None),
     Sys(Noticed(d), None, None),
     Sys(Dropped(d), None, None),
     Sys(Dropped(d), None, Some(Sweep(0, At(None)))),
     Sys(Dropped(d), None, Some(Sweep(0, Done))),
     Sys(Wiped(d), None, None),
     Sys(Wiped(d), Collecting(At(None), At(None), {}), None),
     Sys(Wiped(d), Collecting(Done, At(None), {}), None),
     Sys(Wiped(d), Collecting(Done, Done, {d}), None),
     Sys(Reclaimed(d), Collecting(Done, Done, {}), None)]
  }

  function WipeSteps(d: Digest): seq<Step> {
    [Call(Commit(Repo, d, 5, None, 100_000)),
     BeginPass(105_000),
     MemberPage(1, Page([P(0, d)], None)),
     BlobPage(1, Page([B(d)], None)),
     EndPass,
     Call(DropRepo(Repo)),
     BeginSweep(0),
     SweepPage(1, Page([], None)),
     FinishRepo,
     BeginPass(115_000),
     MemberPage(1, Page([], None)),
     BlobPage(1, Page([B(d)], None)),
     Collect(d)]
  }

  // --- the steps --------------------------------------------------------

  lemma Upload(cfg: Config, d: Digest)
    ensures Serve(cfg, map[], Commit(Repo, d, 5, None, 100_000)) == Uploaded(d)
  {
    var s1 := Allocate(map[], 0, Repo);
    assert Arrive(map[], Commit(Repo, d, 5, None, 100_000)) == (s1, Some(0));
    assert Perform(s1, CommitBlob(s1, 0, d, 5, 100_000)) == Uploaded(d);
  }

  lemma Drop(cfg: Config, d: Digest)
    ensures Serve(cfg, Noticed(d), DropRepo(Repo)) == Dropped(d)
  {
    assert Arrive(Noticed(d), DropRepo(Repo)) == (Noticed(d), Some(0));
    assert Perform(Noticed(d), Tombstone(Noticed(d), Repo, 0)) == Dropped(d);
  }

  lemma Pools(d: Digest)
    ensures Pool(Uploaded(d), Members) == {P(0, d)} && Pool(Uploaded(d), Blobs) == {B(d)}
    ensures Pool(Dropped(d), ManifestsIn(0)) == {}
    ensures Pool(Wiped(d), Members) == {} && Pool(Wiped(d), Blobs) == {B(d)}
    ensures !Referenced(Uploaded(d), d) && !Referenced(Wiped(d), d)
    ensures var none: set<Digest> := {}; none + {d} == {d} && none + none == none && {d} - {d} == none
  {}

  lemma NoKeys(s: Data, g: Range)
    requires Pool(s, g) == {}
    ensures IsPage(Before, Pool(s, g), None, 1, Page([], None))
  {}

  lemma NoneStale(d: Digest)
    ensures Perform(Uploaded(d), SweepMembers(Uploaded(d), Elements([P(0, d)]), 95)) == Uploaded(d)
    ensures Perform(Wiped(d), SweepMembers(Wiped(d), Elements([]), 105)) == Wiped(d)
    ensures Perform(Dropped(d), SweepRefs(Dropped(d), 0, ManifestsOf([]))) == Dropped(d)
  {
    forall k | k in Elements([P(0, d)]) ensures !Stale(Uploaded(d), k, 95) {}
    assert SweepMembers(Uploaded(d), Elements([P(0, d)]), 95).dels == {};
    assert SweepMembers(Wiped(d), Elements([]), 105).dels == {};
    assert SweepRefs(Dropped(d), 0, ManifestsOf([])).dels == {};
  }

  lemma UploadStep(cfg: Config, d: Digest)
    ensures StepAt(cfg, 10, WipeStates(d), WipeSteps(d), 0)
  {
    var states, steps := WipeStates(d), WipeSteps(d);
    assert steps[0] == Call(Commit(Repo, d, 5, None, 100_000)) && states[1] == Sys(Uploaded(d), None, None);
    Upload(cfg, d);
  }

  lemma SpareStep(cfg: Config, d: Digest)
    ensures StepAt(cfg, 10, WipeStates(d), WipeSteps(d), 2)
  {
    Pools(d);
    OnlyKey(Uploaded(d), Members, P(0, d));
    NoneStale(d);
  }

  lemma MarkStep(cfg: Config, d: Digest)
    ensures StepAt(cfg, 10, WipeStates(d), WipeSteps(d), 3)
  {
    MarkNext(cfg, d);
  }

  lemma MarkNext(cfg: Config, d: Digest)
    ensures Next(cfg, 10, Sys(Uploaded(d), Marking(Done, At(None), {}), None), BlobPage(1, Page([B(d)], None)),
                 Sys(Noticed(d), Marking(Done, Done, {d}), None))
  {
    Pools(d);
    OnlyKey(Uploaded(d), Blobs, B(d));
    OneBlob(d);
    ScanPlaces(Uploaded(d), d, 105_000, 95);
  }

  lemma DropStep(cfg: Config, d: Digest)
    ensures StepAt(cfg, 10, WipeStates(d), WipeSteps(d), 5)
  {
    var states, steps := WipeStates(d), WipeSteps(d);
    assert steps[5] == Call(DropRepo(Repo)) && states[5] == Sys(Noticed(d), None, None) && states[6] == Sys(Dropped(d), None, None);
    Drop(cfg, d);
  }

  lemma SweepStep(cfg: Config, d: Digest)
    ensures StepAt(cfg, 10, WipeStates(d), WipeSteps(d), 7)
  {
    Pools(d);
    NoKeys(Dropped(d), ManifestsIn(0));
    NoneStale(d);
  }

  lemma WipeStep(cfg: Config, d: Digest)
    ensures StepAt(cfg, 10, WipeStates(d), WipeSteps(d), 8)
  {
    WipeIs(d);
  }

  lemma WipeIs(d: Digest)
    ensures FinishSweep(Dropped(d), 0) == Wiped(d)
  {
    assert (set k | k in Dropped(d) && (KeyedByRepo(k, 0) || k == Dead(0))) == {P(0, d), Dead(0)};
  }

  lemma EmptyStep(cfg: Config, d: Digest)
    ensures StepAt(cfg, 10, WipeStates(d), WipeSteps(d), 10)
  {
    Pools(d);
    NoKeys(Wiped(d), Members);
    NoneStale(d);
  }

  lemma RipeStep(cfg: Config, d: Digest)
    ensures StepAt(cfg, 10, WipeStates(d), WipeSteps(d), 11)
  {
    Pools(d);
    OnlyKey(Wiped(d), Blobs, B(d));
    OneBlob(d);
    ScanFindsRipe(Wiped(d), d, 115_000, 105);
  }

  lemma CollectStep(cfg: Config, d: Digest)
    ensures StepAt(cfg, 10, WipeStates(d), WipeSteps(d), 12)
  {
    Pools(d);
  }

  lemma ClockStep(cfg: Config, d: Digest, i: nat)
    requires i == 1 || i == 4 || i == 6 || i == 9
    ensures StepAt(cfg, 10, WipeStates(d), WipeSteps(d), i)
  {}

  lemma WipeStepAt(cfg: Config, d: Digest, i: nat)
    requires i < 13
    ensures StepAt(cfg, 10, WipeStates(d), WipeSteps(d), i)
  {
    match i
    case 0 => UploadStep(cfg, d);
    case 2 => SpareStep(cfg, d);
    case 3 => MarkStep(cfg, d);
    case 5 => DropStep(cfg, d);
    case 7 => SweepStep(cfg, d);
    case 8 => WipeStep(cfg, d);
    case 10 => EmptyStep(cfg, d);
    case 11 => RipeStep(cfg, d);
    case 12 => CollectStep(cfg, d);
    case _ => ClockStep(cfg, d, i);
  }

  /**
   Ten seconds of grace: uploaded at 100, marked at 105 while held, the repository dropped and its
   sweep finished, collected at 115. The membership ends inside the interval and the mark stands
   right through it.
   */
  lemma WipesDoNotRestartTheClock(cfg: Config, d: Digest)
    ensures IsRun(cfg, 10, WipeStates(d), WipeSteps(d)) && Collects(WipeStates(d), WipeSteps(d), 12, d)
    ensures Places(WipeStates(d)[3], WipeSteps(d)[3], d)
    ensures P(0, d) in WipeStates(d)[8].store && P(0, d) !in WipeStates(d)[9].store
    ensures forall k :: 4 <= k <= 12 ==> MarkedAt(WipeStates(d)[k], d, 105)
  {
    var states, steps := WipeStates(d), WipeSteps(d);
    forall i | 0 <= i < |steps| ensures StepAt(cfg, 10, states, steps, i) { WipeStepAt(cfg, d, i); }
    PassPlaces(d);
  }

  lemma PassPlaces(d: Digest)
    ensures Places(WipeStates(d)[3], WipeSteps(d)[3], d)
  {
    UploadMarks(d);
    assert WipeSteps(d)[3] == BlobPage(1, Page([B(d)], None)) && WipeStates(d)[3] == Sys(Uploaded(d), Marking(Done, At(None), {}), None);
  }

  lemma UploadMarks(d: Digest)
    ensures d in MarkedBy(Uploaded(d), BlobsOf([B(d)]))
  {
    Pools(d);
    OneBlob(d);
    ScanPlaces(Uploaded(d), d, 105_000, 95);
  }
}
