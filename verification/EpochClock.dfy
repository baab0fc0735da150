/**
 The exception in the grace period. A clock within one grace period of the epoch has its cutoff
 floored at zero, so everything stamped zero is old at once: an upload can lose its membership,
 be marked, and be collected in less than the grace period.
 */
module EpochClock {
  import opened Results
  import opened Paging
  import opened Keys
  import opened Store
  import opened Interner
  import opened Registry
  import opened Requests
  import opened System
  import opened Runs
  import opened ClockSkew
  import opened WipedHolder

  function AtEpoch(d: Digest): Data {
    map[N(Repo) := IdV(0), I(0) := NameV(Repo), I(RESERVED_ID) := IdV(1), B(d) := BlobV(5), P(0, d) := MemberV(5, 0)]
  }

  function Unheld0(d: Digest): Data {
    map[N(Repo) := IdV(0), I(0) := NameV(Repo), I(RESERVED_ID) := IdV(1), B(d) := BlobV(5)]
  }

  function Marked0(d: Digest): Data {
    Unheld0(d)[C(d) := MarkV(0)]
  }

  function Gone(d: Digest): Data {
    Perform(Marked0(d), Effect({B(d), C(d)}, map[]))
  }

  function PassAt(now: Millis, members: Walk<Key>, blobs: Walk<Key>, ripe: set<Digest>, marked: set<Digest>): Option<Pass> {
    Some(Pass(now, 0, members, blobs, ripe, marked))
  }

  function EpochStates(d: Digest): seq<Sys> {
    [Boot,
     Sys(AtEpoch(d), None, None),
     Sys(AtEpoch(d), PassAt(0, At(None), At(None), {}, {}), None),
     Sys(Unheld0(d), PassAt(0, Done, At(None), {}, {}), None),
     Sys(Marked0(d), PassAt(0, Done, Done, {}, {d}), None),
     Sys(Marked0(d), None, None),
     Sys(Marked0(d), PassAt(5_000, At(None), At(None), {}, {}), None),
     Sys(Marked0(d), PassAt(5_000, Done, At(None), {}, {}), None),
     Sys(Marked0(d), PassAt(5_000, Done, Done, {d}, {}), None),
     Sys(Gone(d), PassAt(5_000, Done, Done, {}, {}), None)]
  }

  function EpochSteps(d: Digest): seq<Step> {
    [Call(Commit(Repo, d, 5, None, 0)),
     BeginPass(0),
     MemberPage(1, Page([P(0, d)], None)),
     BlobPage(1, Page([B(d)], None)),
     EndPass,
     BeginPass(5_000),
     MemberPage(1, Page([], None)),
     BlobPage(1, Page([B(d)], None)),
     Collect(d)]
  }

  lemma Ranges(d: Digest)
    ensures Pool(AtEpoch(d), Members) == {P(0, d)} && Pool(Unheld0(d), Blobs) == {B(d)}
    ensures Pool(Marked0(d), Members) == {} && Pool(Marked0(d), Blobs) == {B(d)}
    ensures !Referenced(AtEpoch(d), d) && !Referenced(Unheld0(d), d) && !Referenced(Marked0(d), d)
    ensures var none: set<Digest> := {}; none + {d} == {d} && none + none == none && {d} - {d} == none
  {}

  lemma UploadStep0(cfg: Config, d: Digest)
    ensures StepAt(cfg, 10, EpochStates(d), EpochSteps(d), 0)
  {
    var states, steps := EpochStates(d), EpochSteps(d);
    assert steps[0] == Call(Commit(Repo, d, 5, None, 0)) && states[1] == Sys(AtEpoch(d), None, None);
    UploadAtEpoch(cfg, d);
  }

  lemma UploadAtEpoch(cfg: Config, d: Digest)
    ensures Serve(cfg, map[], Commit(Repo, d, 5, None, 0)) == AtEpoch(d)
  {
    var req := Commit(Repo, d, 5, None, 0);
    var s1 := Allocate(map[], 0, Repo);
    assert Arrive(map[], req) == (s1, Some(0));
    assert Perform(s1, CommitBlob(s1, 0, d, 5, 0)) == AtEpoch(d);
  }

  lemma RetractStep(cfg: Config, d: Digest)
    ensures StepAt(cfg, 10, EpochStates(d), EpochSteps(d), 2)
  {
    Ranges(d);
    OnlyKey(AtEpoch(d), Members, P(0, d));
    Retracted(d);
  }

  lemma Retracted(d: Digest)
    ensures Perform(AtEpoch(d), SweepMembers(AtEpoch(d), Elements([P(0, d)]), 0)) == Unheld0(d)
  {
    Ranges(d);
    var s := AtEpoch(d);
    assert !ReferencedIn(s, d, 0) by {
      if ReferencedIn(s, d, 0) { var k :| k in s && InRange(k, RefsIn(d, 0)); assert InRange(k, RefsOf(d)); }
    }
    assert P(0, d) in Elements([P(0, d)]) && Stale(s, P(0, d), 0);
    assert SweepMembers(s, Elements([P(0, d)]), 0).dels == {P(0, d), C(d)};
    assert Perform(s, SweepMembers(s, Elements([P(0, d)]), 0)) == Unheld0(d);
  }

  lemma MarkStep0(cfg: Config, d: Digest)
    ensures StepAt(cfg, 10, EpochStates(d), EpochSteps(d), 3)
  {
    Ranges(d);
    OnlyKey(Unheld0(d), Blobs, B(d));
    OneBlob(d);
    ScanPlaces(Unheld0(d), d, 0, 0);
  }

  lemma NothingHeldStep(cfg: Config, d: Digest)
    ensures StepAt(cfg, 10, EpochStates(d), EpochSteps(d), 6)
  {
    Ranges(d);
    NoKeys(Marked0(d), Members);
    assert SweepMembers(Marked0(d), Elements([]), 0).dels == {};
  }

  lemma RipeStep0(cfg: Config, d: Digest)
    ensures StepAt(cfg, 10, EpochStates(d), EpochSteps(d), 7)
  {
    Ranges(d);
    OnlyKey(Marked0(d), Blobs, B(d));
    OneBlob(d);
    ScanFindsRipe(Marked0(d), d, 5_000, 0);
  }

  lemma LastStep(cfg: Config, d: Digest)
    ensures StepAt(cfg, 10, EpochStates(d), EpochSteps(d), 8)
  {
    Ranges(d);
  }

  lemma PassStep(cfg: Config, d: Digest, i: nat)
    requires i == 1 || i == 4 || i == 5
    ensures StepAt(cfg, 10, EpochStates(d), EpochSteps(d), i)
  {}

  /** Ten seconds of grace, uploaded and marked at the epoch, collected five seconds later. */
  lemma EpochCutsTheGraceShort(cfg: Config, d: Digest)
    ensures IsRun(cfg, 10, EpochStates(d), EpochSteps(d)) && Collects(EpochStates(d), EpochSteps(d), 8, d)
    ensures Places(EpochStates(d)[3], EpochSteps(d)[3], d)
    ensures Secs(EpochStates(d)[8].pass.value.now) < Secs(EpochStates(d)[3].pass.value.now) + 10
  {
    var states, steps := EpochStates(d), EpochSteps(d);
    forall i | 0 <= i < |steps| ensures StepAt(cfg, 10, states, steps, i) {
      match i
      case 0 => UploadStep0(cfg, d);
      case 2 => RetractStep(cfg, d);
      case 3 => MarkStep0(cfg, d);
      case 6 => NothingHeldStep(cfg, d);
      case 7 => RipeStep0(cfg, d);
      case 8 => LastStep(cfg, d);
      case _ => PassStep(cfg, d, i);
    }
    EpochPlaces(d);
  }

  lemma EpochPlaces(d: Digest)
    ensures Places(EpochStates(d)[3], EpochSteps(d)[3], d)
  {
    EpochMarks(d);
    assert EpochSteps(d)[3] == BlobPage(1, Page([B(d)], None)) && EpochStates(d)[3] == Sys(Unheld0(d), PassAt(0, Done, At(None), {}, {}), None);
  }

  lemma EpochMarks(d: Digest)
    ensures d in MarkedBy(Unheld0(d), BlobsOf([B(d)]))
  {
    Ranges(d);
    OneBlob(d);
    ScanPlaces(Unheld0(d), d, 0, 0);
  }
}
