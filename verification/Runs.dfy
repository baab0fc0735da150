/** What holds in every run of the registry from an empty store. */
module Runs {
  import opened Results
  import opened Paging
  import opened Keys
  import opened Store
  import opened Interner
  import opened Registry
  import opened Invariants
  import opened Upkeep
  import opened Requests
  import opened System

  const Boot := Sys(map[], None, None)

  ghost predicate StepAt(cfg: Config, grace: nat, states: seq<Sys>, steps: seq<Step>, i: nat)
    requires |states| == |steps| + 1 && i < |steps|
  {
    Next(cfg, grace, states[i], steps[i], states[i + 1])
  }

  ghost predicate IsRun(cfg: Config, grace: nat, states: seq<Sys>, steps: seq<Step>) {
    && |states| == |steps| + 1 && states[0] == Boot
    && forall i :: 0 <= i < |steps| ==> StepAt(cfg, grace, states, steps, i)
  }

  /** Every index invariant, in every reachable state. */
  lemma {:induction false} ReachableInv(cfg: Config, grace: nat, states: seq<Sys>, steps: seq<Step>, i: nat)
    requires IsRun(cfg, grace, states, steps) && i < |states|
    ensures SysInv(cfg, states[i])
    ensures states[i].pass.Some? ==> states[i].pass.value.cutoff == Ago(states[i].pass.value.now, grace)
  {
    if i == 0 {
      EmptyStoreIsSound(cfg);
    } else {
      ReachableInv(cfg, grace, states, steps, i - 1);
      assert StepAt(cfg, grace, states, steps, i - 1);
      StepKeepsInv(cfg, grace, states[i - 1], steps[i - 1], states[i]);
    }
  }

  // --- purge safety -----------------------------------------------------

  /** Step `i` takes the blob's record away. */
  ghost predicate Collects(states: seq<Sys>, steps: seq<Step>, i: nat, d: Digest)
    requires |states| == |steps| + 1 && i < |steps|
  {
    && steps[i] == Collect(d) && states[i].pass.Some?
    && Ripe(states[i].store, d, states[i].pass.value.cutoff)
  }

  ghost predicate Unheld(s: Data, d: Digest) {
    forall r: RepoId :: P(r, d) !in s
  }

  /**
   A collected blob has no reference anywhere, and the only memberships that can survive it are
   stamped inside the grace period.
   */
  lemma PurgeSafety(cfg: Config, grace: nat, states: seq<Sys>, steps: seq<Step>, i: nat, d: Digest)
    requires IsRun(cfg, grace, states, steps) && i < |steps| && Collects(states, steps, i, d)
    ensures B(d) in states[i].store && B(d) !in states[i + 1].store
    ensures !Referenced(states[i].store, d)
    ensures forall r: RepoId :: P(r, d) in states[i].store ==>
              states[i].store[P(r, d)].MemberV? && states[i].store[P(r, d)].addedAt > states[i].pass.value.cutoff
  {
    ReachableInv(cfg, grace, states, steps, i);
    var s, p := states[i].store, states[i].pass.value;
    assert StepAt(cfg, grace, states, steps, i);
    forall r: RepoId | P(r, d) in s ensures s[P(r, d)].MemberV? && s[P(r, d)].addedAt > p.cutoff {
      assert d !in p.marked && Passed(Before, p.members, P(r, d));
    }
  }

  /** The mark placed at step `j` is no earlier than any membership it finds. */
  ghost predicate TimelyMark(s: Sys, step: Step, d: Digest) {
    Places(s, step, d) ==> forall r: RepoId :: P(r, d) in s.store && s.store[P(r, d)].MemberV? ==>
      s.store[P(r, d)].addedAt <= Secs(s.pass.value.now)
  }

  ghost predicate Places(s: Sys, step: Step, d: Digest) {
    step.BlobPage? && s.pass.Some? && d in MarkedBy(s.store, BlobsOf(step.page.keys))
  }

  ghost predicate MarkKept(s: Data, s': Data, d: Digest) {
    C(d) in s && C(d) in s' && s'[C(d)] == s[C(d)]
  }

  /** The step drops every key of this repository, its memberships included, and no mark. */
  ghost predicate Wipes(s: Sys, step: Step, r: RepoId) {
    step.FinishRepo? && s.sweep.Some? && s.sweep.value.id == r
  }

  /** What a step does to the blob's memberships while its mark stands: a wipe takes its own, nothing else moves. */
  ghost predicate MembersSteady(s: Sys, step: Step, s': Sys, d: Digest) {
    forall r: RepoId :: if Wipes(s, step, r) then P(r, d) !in s'.store else SameKey(s.store, s'.store, P(r, d))
  }

  /**
   A mark found after a step either stood before it, undisturbed, or was placed by it; and no step
   but a wipe has changed who holds the blob.
   */
  lemma StepMarks(cfg: Config, grace: nat, s: Sys, step: Step, s': Sys, d: Digest)
    requires Next(cfg, grace, s, step, s') && C(d) in s'.store
    ensures (MarkKept(s.store, s'.store, d) && !Disturbs(cfg, s, step, d))
         || (Places(s, step, d) && s'.store[C(d)] == MarkV(Secs(s.pass.value.now)))
    ensures MembersSteady(s, step, s', d)
  {
    if step.Call? {
      ServeIsClockSafe(cfg, s.store, step.req, d);
    } else if step.MemberPage? {
      RetractedIsUnmarked(s.store, step.page, s.pass.value.cutoff, d);
    } else if step.BlobPage? {
      ScanMarks(s.store, BlobsOf(step.page.keys), s.pass.value.now, d);
    } else {
      UpkeepMarksNothing(cfg, grace, s, step, s', d);
    }
  }

  lemma ScanMarks(s: Data, page: set<Digest>, now: Millis, d: Digest)
    ensures var s' := Perform(s, ScanBlobs(s, page, now));
      && (forall r: RepoId :: SameKey(s, s', P(r, d)))
      && (C(d) in s' ==> MarkKept(s, s', d) || (d in MarkedBy(s, page) && s'[C(d)] == MarkV(Secs(now))))
  {
    forall r: RepoId ensures SameKey(s, Perform(s, ScanBlobs(s, page, now)), P(r, d)) {}
  }

  lemma UpkeepMarksNothing(cfg: Config, grace: nat, s: Sys, step: Step, s': Sys, d: Digest)
    requires Next(cfg, grace, s, step, s') && !step.Call? && !step.MemberPage? && !step.BlobPage?
    ensures NoNewMarks(s.store, s'.store) && MembersSteady(s, step, s', d)
  {
    match step {
      case Collect(b) => CollectMarksNothing(s.store, b, s.pass.value.cutoff);
      case SweepPage(limit, page) =>
        SweepRefsMarksNothing(s.store, s.sweep.value.id, ManifestsOf(page.keys));
        SweepRefsKeepMembers(s.store, s.sweep.value.id, ManifestsOf(page.keys), d);
      case FinishRepo =>
        FinishMarksNothing(s.store, s.sweep.value.id);
        FinishWipesItsOwn(s.store, s.sweep.value.id, d);
      case _ =>
    }
  }

  lemma SweepRefsKeepMembers(s: Data, id: RepoId, page: set<Digest>, d: Digest)
    ensures forall r: RepoId :: SameKey(s, Perform(s, SweepRefs(s, id, page)), P(r, d))
  {
    forall r: RepoId ensures SameKey(s, Perform(s, SweepRefs(s, id, page)), P(r, d)) {
      assert P(r, d) !in SweepRefs(s, id, page).dels;
    }
  }

  lemma FinishWipesItsOwn(s: Data, id: RepoId, d: Digest)
    ensures forall r: RepoId :: if r == id then P(r, d) !in FinishSweep(s, id) else SameKey(s, FinishSweep(s, id), P(r, d))
  {}

  lemma RetractedIsUnmarked(s: Data, page: Page<Key>, cutoff: nat, d: Digest)
    ensures var s' := Perform(s, SweepMembers(s, Elements(page.keys), cutoff));
      && (Retracts(s, page, cutoff, d) ==> C(d) !in s')
      && (C(d) in s' ==> MarkKept(s, s', d) && forall r: RepoId :: SameKey(s, s', P(r, d)))
  {
    var s' := Perform(s, SweepMembers(s, Elements(page.keys), cutoff));
    if Retracts(s, page, cutoff, d) {
      var k :| k in page.keys && Stale(s, k, cutoff) && k.digest == d;
      assert C(k.digest) in SweepMembers(s, Elements(page.keys), cutoff).dels;
    }
    if C(d) in s' {
      forall r: RepoId ensures SameKey(s, s', P(r, d)) {
        assert P(r, d) in page.keys && Stale(s, P(r, d), cutoff) ==> Retracts(s, page, cutoff, d);
      }
    }
  }

  // --- continuous quiet -------------------------------------------------

  /**
   The step commits, mounts, references or deletes the blob, or is the page of a pass that
   retracts a membership of it. The one other thing that can end a membership is a wipe.
   */
  ghost predicate Disturbs(cfg: Config, s: Sys, step: Step, d: Digest) {
    match step
    case Call(req) => Touches(cfg, s.store, req, d)
    case MemberPage(_, page) => s.pass.Some? && Retracts(s.store, page, s.pass.value.cutoff, d)
    case _ => false
  }

  ghost predicate QuietSince(cfg: Config, states: seq<Sys>, steps: seq<Step>, d: Digest, j: nat, i: nat)
    requires |states| == |steps| + 1 && i < |states|
  {
    && j < i && Places(states[j], steps[j], d)
    && forall k :: j < k < i ==> !Disturbs(cfg, states[k], steps[k], d)
  }

  ghost predicate SteadyAt(states: seq<Sys>, steps: seq<Step>, d: Digest, k: nat)
    requires |states| == |steps| + 1 && k < |steps|
  {
    MembersSteady(states[k], steps[k], states[k + 1], d)
  }

  ghost predicate MarkedAt(s: Sys, d: Digest, at: nat) {
    C(d) in s.store && s.store[C(d)] == MarkV(at)
  }

  /** From the marking step on, the one mark stands, and memberships go only with their whole repository. */
  ghost predicate Standing(states: seq<Sys>, steps: seq<Step>, d: Digest, j: nat, i: nat)
    requires |states| == |steps| + 1 && j < i < |states| && states[j].pass.Some?
  {
    && (forall k :: j < k <= i ==> MarkedAt(states[k], d, Secs(states[j].pass.value.now)))
    && (forall k :: j <= k < i ==> SteadyAt(states, steps, d, k))
  }

  ghost predicate WipedWithin(states: seq<Sys>, steps: seq<Step>, r: RepoId, j: nat, i: nat)
    requires |states| == |steps| + 1 && i < |states|
  {
    exists k :: j <= k < i && Wipes(states[k], steps[k], r)
  }

  lemma MarkAt(cfg: Config, grace: nat, states: seq<Sys>, steps: seq<Step>, i: nat, d: Digest)
    requires IsRun(cfg, grace, states, steps) && i < |steps| && C(d) in states[i + 1].store
    ensures (MarkKept(states[i].store, states[i + 1].store, d) && !Disturbs(cfg, states[i], steps[i], d))
         || (Places(states[i], steps[i], d) && MarkedAt(states[i + 1], d, Secs(states[i].pass.value.now)))
    ensures var steady := SteadyAt(states, steps, d, i); steady
  {
    assert StepAt(cfg, grace, states, steps, i);
    StepMarks(cfg, grace, states[i], steps[i], states[i + 1], d);
  }

  lemma QuietLonger(cfg: Config, states: seq<Sys>, steps: seq<Step>, d: Digest, j: nat, i: nat)
    requires |states| == |steps| + 1 && i < |steps|
    requires QuietSince(cfg, states, steps, d, j, i) && !Disturbs(cfg, states[i], steps[i], d)
    ensures var quiet := QuietSince(cfg, states, steps, d, j, i + 1); quiet
  {}

  lemma StandsLonger(states: seq<Sys>, steps: seq<Step>, d: Digest, j: nat, i: nat)
    requires |states| == |steps| + 1 && j < i < |steps| && states[j].pass.Some?
    requires Standing(states, steps, d, j, i) && MarkKept(states[i].store, states[i + 1].store, d)
    requires var steady := SteadyAt(states, steps, d, i); steady
    ensures var standing := Standing(states, steps, d, j, i + 1); standing
  {
    assert MarkedAt(states[i], d, Secs(states[j].pass.value.now));
    forall k | j <= k < i + 1 ensures SteadyAt(states, steps, d, k) {}
  }

  lemma {:induction false} MarkHasOrigin(cfg: Config, grace: nat, states: seq<Sys>, steps: seq<Step>, i: nat, d: Digest) returns (j: nat)
    requires IsRun(cfg, grace, states, steps) && i < |states| && C(d) in states[i].store
    ensures var quiet := QuietSince(cfg, states, steps, d, j, i); quiet
    ensures j < i && states[j].pass.Some? && (var standing := Standing(states, steps, d, j, i); standing)
  {
    MarkAt(cfg, grace, states, steps, i - 1, d);
    if Places(states[i - 1], steps[i - 1], d) && MarkedAt(states[i], d, Secs(states[i - 1].pass.value.now)) {
      j := i - 1;
      QuietStarts(cfg, states, steps, d, j);
    } else {
      j := MarkHasOrigin(cfg, grace, states, steps, i - 1, d);
      QuietLonger(cfg, states, steps, d, j, i - 1);
      StandsLonger(states, steps, d, j, i - 1);
    }
  }

  lemma QuietStarts(cfg: Config, states: seq<Sys>, steps: seq<Step>, d: Digest, j: nat)
    requires |states| == |steps| + 1 && j < |steps| && Places(states[j], steps[j], d)
    ensures var quiet := QuietSince(cfg, states, steps, d, j, j + 1); quiet
  {}

  /** Who holds the blob later is who held it at the mark, on the same record, less the repositories wiped. */
  lemma {:induction false} HeldThrough(states: seq<Sys>, steps: seq<Step>, d: Digest, j: nat, i: nat, r: RepoId)
    requires |states| == |steps| + 1 && j <= i < |states|
    requires forall k :: j <= k < i ==> SteadyAt(states, steps, d, k)
    ensures P(r, d) in states[i].store <==> P(r, d) in states[j].store && !WipedWithin(states, steps, r, j, i)
    ensures P(r, d) in states[i].store ==> states[i].store[P(r, d)] == states[j].store[P(r, d)]
    decreases i
  {
    if j < i {
      HeldThrough(states, steps, d, j, i - 1, r);
      assert SteadyAt(states, steps, d, i - 1);
      WipedLonger(states, steps, r, j, i);
    }
  }

  lemma WipedLonger(states: seq<Sys>, steps: seq<Step>, r: RepoId, j: nat, i: nat)
    requires |states| == |steps| + 1 && j < i < |states|
    ensures WipedWithin(states, steps, r, j, i) <==> WipedWithin(states, steps, r, j, i - 1) || Wipes(states[i - 1], steps[i - 1], r)
  {}

  /**
   Behind every collection is a marking step, by a pass whose clock is a whole grace period
   earlier. From the one to the other the mark stands, no call touches the blob, no pass retracts
   a membership of it, and a membership ends only by the wipe of its own dropped repository. (A
   clock within one grace period of the epoch has its cutoff floored there.)
   */
  lemma ContinuousQuiet(cfg: Config, grace: nat, states: seq<Sys>, steps: seq<Step>, i: nat, d: Digest) returns (j: nat)
    requires IsRun(cfg, grace, states, steps) && i < |steps| && Collects(states, steps, i, d)
    ensures var quiet := QuietSince(cfg, states, steps, d, j, i); quiet
    ensures j < i && states[j].pass.Some? && (var standing := Standing(states, steps, d, j, i); standing)
    ensures var marked, collected := Secs(states[j].pass.value.now), Secs(states[i].pass.value.now);
      marked + grace <= collected || (marked == 0 && collected < grace)
  {
    ReachableInv(cfg, grace, states, steps, i);
    j := MarkHasOrigin(cfg, grace, states, steps, i, d);
    assert MarkedAt(states[i], d, Secs(states[j].pass.value.now));
  }

  /** The repository holds the blob, on a record stamped later than the running pass's clock. */
  ghost predicate HeldLate(s: Sys, r: RepoId, d: Digest) {
    && s.pass.Some? && P(r, d) in s.store && s.store[P(r, d)].MemberV?
    && s.store[P(r, d)].addedAt > Secs(s.pass.value.now)
  }

  /**
   Exactly who loses a held blob: the repositories that, when the mark was placed, held it on a
   record stamped later than the marking clock, and were not wiped since. So, wipes apart,
   collecting takes bytes from nobody if and only if that one marking step was timely.
   */
  lemma PurgeSafetyAtTheMark(cfg: Config, grace: nat, states: seq<Sys>, steps: seq<Step>, i: nat, d: Digest) returns (j: nat)
    requires IsRun(cfg, grace, states, steps) && i < |steps| && Collects(states, steps, i, d)
    ensures var quiet := QuietSince(cfg, states, steps, d, j, i); quiet
    ensures forall r: RepoId :: P(r, d) in states[i].store <==> HeldLate(states[j], r, d) && !WipedWithin(states, steps, r, j, i)
    ensures forall r: RepoId :: P(r, d) in states[i].store ==> P(r, d) in states[j].store && states[i].store[P(r, d)] == states[j].store[P(r, d)]
    ensures TimelyMark(states[j], steps[j], d) ==> Unheld(states[i].store, d)
    ensures (forall r: RepoId :: !WipedWithin(states, steps, r, j, i)) ==>
              (Unheld(states[i].store, d) <==> TimelyMark(states[j], steps[j], d))
  {
    PurgeSafety(cfg, grace, states, steps, i, d);
    j := ContinuousQuiet(cfg, grace, states, steps, i, d);
    assert MarkedAt(states[i], d, Secs(states[j].pass.value.now));
    forall r: RepoId
      ensures P(r, d) in states[i].store <==> HeldLate(states[j], r, d) && !WipedWithin(states, steps, r, j, i)
      ensures P(r, d) in states[i].store ==> P(r, d) in states[j].store && states[i].store[P(r, d)] == states[j].store[P(r, d)]
    {
      HeldThrough(states, steps, d, j, i, r);
    }
    LateOrTimely(states[j], steps[j], d);
  }

  lemma LateOrTimely(s: Sys, step: Step, d: Digest)
    requires Places(s, step, d)
    ensures TimelyMark(s, step, d) <==> forall r: RepoId :: !HeldLate(s, r, d)
  {
    if forall r: RepoId :: !HeldLate(s, r, d) {
      forall r: RepoId | P(r, d) in s.store && s.store[P(r, d)].MemberV? ensures s.store[P(r, d)].addedAt <= Secs(s.pass.value.now) {
        assert !HeldLate(s, r, d);
      }
    }
  }

  /**
   When no pass marks the blob with a clock behind one of its membership stamps, a collected blob
   has no reference and no membership in any repository.
   */
  lemma PurgeSafetyWithTimelyMarks(cfg: Config, grace: nat, states: seq<Sys>, steps: seq<Step>, i: nat, d: Digest)
    requires IsRun(cfg, grace, states, steps) && i < |steps| && Collects(states, steps, i, d)
    requires forall j :: 0 <= j < i ==> TimelyMark(states[j], steps[j], d)
    ensures !Referenced(states[i].store, d) && Unheld(states[i].store, d)
  {
    PurgeSafety(cfg, grace, states, steps, i, d);
    var j := PurgeSafetyAtTheMark(cfg, grace, states, steps, i, d);
    assert TimelyMark(states[j], steps[j], d);
  }

  /** Purge's clock never runs on a blob some manifest references. */
  lemma MarkedIsUnreferenced(cfg: Config, grace: nat, states: seq<Sys>, steps: seq<Step>, i: nat, d: Digest)
    requires IsRun(cfg, grace, states, steps) && i < |states| && C(d) in states[i].store
    ensures !Referenced(states[i].store, d)
  {
    ReachableInv(cfg, grace, states, steps, i);
  }

  // --- the watermark ----------------------------------------------------

  lemma StepIssues(cfg: Config, grace: nat, s: Sys, step: Step, s': Sys)
    requires SysInv(cfg, s) && Next(cfg, grace, s, step, s')
    ensures var ordered := IssuesInOrder(s.store, s'.store); ordered
  {
    if step.Call? {
      ServeIssues(cfg, s.store, step.req);
    } else {
      StepKeepsIds(cfg, grace, s, step, s');
      assert SameKey(s.store, s'.store, I(RESERVED_ID));
    }
  }

  lemma InUseIsIssued(cfg: Config, grace: nat, states: seq<Sys>, steps: seq<Step>, i: nat, id: RepoId)
    requires IsRun(cfg, grace, states, steps) && i < |states| && id != RESERVED_ID && I(id) in states[i].store
    ensures id < NextId(states[i].store)
  {
    ReachableInv(cfg, grace, states, steps, i);
  }

  lemma IssuesAt(cfg: Config, grace: nat, states: seq<Sys>, steps: seq<Step>, i: nat)
    requires IsRun(cfg, grace, states, steps) && i < |steps|
    ensures var ordered := IssuesInOrder(states[i].store, states[i + 1].store); ordered
  {
    ReachableInv(cfg, grace, states, steps, i);
    assert StepAt(cfg, grace, states, steps, i);
    StepIssues(cfg, grace, states[i], steps[i], states[i + 1]);
  }

  ghost predicate Interned(states: seq<Sys>, i: nat, id: RepoId)
    requires i < |states|
  {
    exists k :: 0 <= k <= i && I(id) in states[k].store
  }

  /**
   The purge watermark: an id is below a reading of the counter exactly when a name had been
   interned under it by then - whatever has become of the name.
   */
  lemma {:induction false} WatermarkIsExact(cfg: Config, grace: nat, states: seq<Sys>, steps: seq<Step>, i: nat, id: RepoId)
    requires IsRun(cfg, grace, states, steps) && i < |states| && id != RESERVED_ID
    ensures id < NextId(states[i].store) <==> Interned(states, i, id)
  {
    if i > 0 {
      WatermarkIsExact(cfg, grace, states, steps, i - 1, id);
      IssuesAt(cfg, grace, states, steps, i - 1);
      assert Interned(states, i, id) <==> Interned(states, i - 1, id) || I(id) in states[i].store;
      if I(id) in states[i].store { InUseIsIssued(cfg, grace, states, steps, i, id); }
    }
  }

  // --- released ids -----------------------------------------------------

  /** The id was handed out, its name is gone, and no sweep is outstanding for it. */
  predicate Released(s: Data, id: RepoId) {
    id < NextId(s) && I(id) !in s && Dead(id) !in s
  }

  ghost predicate Unmentioned(s: Data, id: RepoId) {
    forall k: Key :: k in s ==> !Mentions(k, id)
  }

  lemma StepAdvances(cfg: Config, grace: nat, s: Sys, step: Step, s': Sys)
    requires SysInv(cfg, s) && Next(cfg, grace, s, step, s')
    ensures NextId(s.store) <= NextId(s'.store)
    ensures forall id: RepoId :: I(id) in s'.store ==> I(id) in s.store || id >= NextId(s.store)
    ensures forall id: RepoId :: Dead(id) in s'.store ==> Dead(id) in s.store || I(id) in s.store || id >= NextId(s.store)
    ensures forall id: RepoId :: Dead(id) in s.store && Dead(id) !in s'.store ==>
              step.FinishRepo? && s.sweep.Some? && s.sweep.value.id == id
  {
    if step.Call? {
      ServeAdvances(cfg, s.store, step.req);
    } else {
      StepKeepsIds(cfg, grace, s, step, s');
      assert SameKey(s.store, s'.store, I(RESERVED_ID));
      forall id: RepoId ensures SameKey(s.store, s'.store, I(id)) {}
      forall id: RepoId | !(step.FinishRepo? && s.sweep.Some? && id == s.sweep.value.id) ensures SameKey(s.store, s'.store, Dead(id)) {}
    }
  }

  lemma StepKeepsIds(cfg: Config, grace: nat, s: Sys, step: Step, s': Sys)
    requires !step.Call? && Next(cfg, grace, s, step, s')
    ensures forall k: Key :: k.I? ==> SameKey(s.store, s'.store, k)
    ensures forall k: Key :: k.Dead? && !(step.FinishRepo? && s.sweep.Some? && k.repo == s.sweep.value.id) ==> SameKey(s.store, s'.store, k)
    ensures step.FinishRepo? ==> Dead(s.sweep.value.id) !in s'.store
  {}

  lemma SweptOrPending(cfg: Config, s: Data, id: RepoId)
    requires Inv(cfg, s)
    ensures Dead(id) in s ==> id < NextId(s) && I(id) !in s
    ensures Dead(id) !in s && I(id) !in s ==> Unmentioned(s, id)
  {}

  lemma StepKeepsReleased(cfg: Config, grace: nat, s: Sys, step: Step, s': Sys, id: RepoId)
    requires SysInv(cfg, s) && Next(cfg, grace, s, step, s') && id < NextId(s.store) && I(id) !in s.store
    ensures id < NextId(s'.store) && I(id) !in s'.store
    ensures Dead(id) !in s.store ==> Dead(id) !in s'.store
  {
    StepAdvances(cfg, grace, s, step, s');
  }

  lemma ReleasedAt(cfg: Config, grace: nat, states: seq<Sys>, steps: seq<Step>, i: nat, id: RepoId)
    requires IsRun(cfg, grace, states, steps) && i < |steps| && id < NextId(states[i].store) && I(id) !in states[i].store
    ensures id < NextId(states[i + 1].store) && I(id) !in states[i + 1].store
    ensures Dead(id) !in states[i].store ==> Dead(id) !in states[i + 1].store
  {
    ReachableInv(cfg, grace, states, steps, i);
    assert StepAt(cfg, grace, states, steps, i);
    StepKeepsReleased(cfg, grace, states[i], steps[i], states[i + 1], id);
  }

  lemma SettledAt(cfg: Config, grace: nat, states: seq<Sys>, steps: seq<Step>, i: nat, id: RepoId)
    requires IsRun(cfg, grace, states, steps) && i < |states|
    ensures Dead(id) in states[i].store ==> id < NextId(states[i].store) && I(id) !in states[i].store
    ensures Dead(id) !in states[i].store && I(id) !in states[i].store ==> (var unmentioned := Unmentioned(states[i].store, id); unmentioned)
  {
    ReachableInv(cfg, grace, states, steps, i);
    SweptOrPending(cfg, states[i].store, id);
  }

  /** A released id stays released, whatever runs afterwards: ids are never handed out twice. */
  lemma {:induction false} ReleasedForGood(cfg: Config, grace: nat, states: seq<Sys>, steps: seq<Step>, i: nat, j: nat, id: RepoId)
    requires IsRun(cfg, grace, states, steps) && i <= j < |states| && Released(states[i].store, id)
    ensures Released(states[j].store, id) && (var unmentioned := Unmentioned(states[j].store, id); unmentioned)
    decreases j
  {
    if i < j {
      ReleasedForGood(cfg, grace, states, steps, i, j - 1, id);
      ReleasedAt(cfg, grace, states, steps, j - 1, id);
    }
    SettledAt(cfg, grace, states, steps, j, id);
  }

  /**
   Dropping a repository is complete and loses nothing else: from the tombstone on, either the
   sweep is still on record - through any crash - or it has finished, and then no key in any
   range mentions the id ever again.
   */
  lemma {:induction false} DropIsComplete(cfg: Config, grace: nat, states: seq<Sys>, steps: seq<Step>, i: nat, j: nat, id: RepoId)
    requires IsRun(cfg, grace, states, steps) && i <= j < |states| && Dead(id) in states[i].store
    ensures id < NextId(states[j].store) && I(id) !in states[j].store
    ensures Dead(id) in states[j].store || (Released(states[j].store, id) && (var unmentioned := Unmentioned(states[j].store, id); unmentioned))
    decreases j
  {
    if i < j {
      DropIsComplete(cfg, grace, states, steps, i, j - 1, id);
      ReleasedAt(cfg, grace, states, steps, j - 1, id);
    }
    SettledAt(cfg, grace, states, steps, j, id);
  }

  /** The step that finishes a drop removes every key of that id and no key of anyone else. */
  lemma FinishRemovesExactlyTheRepo(cfg: Config, grace: nat, states: seq<Sys>, steps: seq<Step>, i: nat)
    requires IsRun(cfg, grace, states, steps) && i < |steps| && steps[i].FinishRepo?
    ensures states[i].sweep.Some?
    ensures var id := states[i].sweep.value.id;
      && Released(states[i + 1].store, id) && Unmentioned(states[i + 1].store, id)
      && forall k: Key :: !Mentions(k, id) && k != Dead(id) ==> SameKey(states[i].store, states[i + 1].store, k)
  {
    ReachableInv(cfg, grace, states, steps, i);
    assert StepAt(cfg, grace, states, steps, i);
    var s, id := states[i].store, states[i].sweep.value.id;
    FinishKeepsInv(cfg, s, id);
    StepKeepsIds(cfg, grace, states[i], steps[i], states[i + 1]);
    assert SameKey(s, states[i + 1].store, I(RESERVED_ID));
  }

  lemma RetireOutcome(cfg: Config, s: Data, name: Name, live: set<RepoId>, watermark: RepoId)
    requires Inv(cfg, s) && Retire(s, name, live, watermark).Some?
    ensures IdOf(s, name).Some?
    ensures var id := IdOf(s, name).value; Unmentioned(s, id) && Released(Perform(s, Retire(s, name, live, watermark).value), id)
  {
    var id := IdOf(s, name).value;
    assert RepoIsEmpty(s, id, live);
    EmptyMeansUnmentioned(cfg, s, id, live);
    RetireReleases(cfg, s, name, id);
  }

  lemma RetireReleases(cfg: Config, s: Data, name: Name, id: RepoId)
    requires Inv(cfg, s) && IdOf(s, name) == Some(id)
    ensures Released(Perform(s, Effect({N(name), I(id)}, map[])), id)
  {
    assert N(name) in s;
    ReleaseKeepsBijection(s, name, id, Perform(s, Effect({N(name), I(id)}, map[])));
  }

  lemma RetireStep(cfg: Config, s: Data, req: Request)
    requires Inv(cfg, s) && req.RetireRepo? && Batch(cfg, s, req).Some?
    ensures IdOf(s, req.repo).Some?
    ensures var id := IdOf(s, req.repo).value; Unmentioned(s, id) && Released(Serve(cfg, s, req), id)
  {
    RetireOutcome(cfg, s, req.repo, req.live, req.watermark);
  }

  /** A retired name had nothing under it in any range, probed or not, so nothing is stranded. */
  lemma RetirementStrandsNothing(cfg: Config, grace: nat, states: seq<Sys>, steps: seq<Step>, i: nat)
    requires IsRun(cfg, grace, states, steps) && i < |steps| && steps[i].Call? && steps[i].req.RetireRepo?
    requires Batch(cfg, states[i].store, steps[i].req).Some?
    ensures IdOf(states[i].store, steps[i].req.repo).Some?
    ensures var id := IdOf(states[i].store, steps[i].req.repo).value;
      Unmentioned(states[i].store, id) && Released(states[i + 1].store, id)
  {
    ReachableInv(cfg, grace, states, steps, i);
    assert StepAt(cfg, grace, states, steps, i);
    RetireStep(cfg, states[i].store, steps[i].req);
  }
}
