/**
 Why a manifest push takes no lock against purge. Its plan finds every layer present; if a layer's
 bytes are taken before its batch is applied, then - wipes and untimely marks apart - the mark they
 are taken on was placed after the plan, and a whole grace period of purge's clock and the start of
 another pass lie between that mark and the collection.
 */
module PushAgainstPurge {
  import opened Keys
  import opened Registry
  import opened System
  import opened Runs

  // --- the collecting pass begins after the mark ------------------------

  /** What a pass has marked it remembers until another begins. */
  lemma {:induction false} MarkedInPass(cfg: Config, grace: nat, states: seq<Sys>, steps: seq<Step>, j: nat, i: nat, d: Digest)
    requires IsRun(cfg, grace, states, steps) && j < i < |states| && Places(states[j], steps[j], d) && states[i].pass.Some?
    requires forall x :: j < x < i ==> !steps[x].BeginPass?
    ensures d in states[i].pass.value.marked
    decreases i
  {
    assert StepAt(cfg, grace, states, steps, i - 1);
    if j + 1 < i { MarkedInPass(cfg, grace, states, steps, j, i - 1, d); }
  }

  /** A pass never collects on its own mark. */
  lemma AnotherPassBegan(cfg: Config, grace: nat, states: seq<Sys>, steps: seq<Step>, j: nat, i: nat, d: Digest) returns (b: nat)
    requires IsRun(cfg, grace, states, steps) && j < i < |steps| && Collects(states, steps, i, d) && Places(states[j], steps[j], d)
    ensures j < b < i && steps[b].BeginPass?
  {
    ReachableInv(cfg, grace, states, steps, i);
    assert StepAt(cfg, grace, states, steps, i);
    assert d !in states[i].pass.value.marked;
    if forall x :: j < x < i ==> !steps[x].BeginPass? {
      MarkedInPass(cfg, grace, states, steps, j, i, d);
      assert false;
    }
    b :| j < b < i && steps[b].BeginPass?;
  }

  // --- a layer between plan and apply -----------------------------------

  /** A marked blob that a repository can serve is served on a membership. */
  lemma ServedOnMembership(cfg: Config, grace: nat, states: seq<Sys>, steps: seq<Step>, p: nat, r: RepoId, d: Digest)
    requires IsRun(cfg, grace, states, steps) && p < |states| && Present(states[p].store, r, d) && C(d) in states[p].store
    ensures P(r, d) in states[p].store
  {
    if ReferencedIn(states[p].store, d, r) { ReferencedSomewhere(states[p].store, d, r); }
    MarkedIsUnreferenced(cfg, grace, states, steps, p, d);
  }

  lemma MarkedBeforeThePlan(cfg: Config, grace: nat, states: seq<Sys>, steps: seq<Step>, p: nat, c: nat, j: nat, r: RepoId, d: Digest)
    requires IsRun(cfg, grace, states, steps) && j < p <= c < |steps| && Collects(states, steps, c, d) && Present(states[p].store, r, d)
    requires states[j].pass.Some? && Standing(states, steps, d, j, c)
    ensures (var late := HeldLate(states[j], r, d); late) || (var wiped := WipedWithin(states, steps, r, p, c); wiped)
  {
    assert MarkedAt(states[p], d, Secs(states[j].pass.value.now)) && MarkedAt(states[c], d, Secs(states[j].pass.value.now));
    ServedOnMembership(cfg, grace, states, steps, p, r, d);
    HeldThrough(states, steps, d, j, p, r);
    HeldThrough(states, steps, d, p, c, r);
    PurgeSafety(cfg, grace, states, steps, c, d);
  }

  /**
   A layer present when a push plans at `p` and collected at `c`, before the batch is applied: the
   mark behind the collection was placed at `j` by a pass whose clock is a grace period before the
   collecting one's, and a pass began since, at `b`. The mark was placed after the plan, unless the
   repository held the layer on a stamp later than the marking clock, or was wiped in between.
   */
  lemma PushOutlastsTheGrace(cfg: Config, grace: nat, states: seq<Sys>, steps: seq<Step>, p: nat, c: nat, r: RepoId, d: Digest) returns (j: nat, b: nat)
    requires IsRun(cfg, grace, states, steps) && p <= c < |steps| && Collects(states, steps, c, d) && Present(states[p].store, r, d)
    ensures var quiet := QuietSince(cfg, states, steps, d, j, c); quiet
    ensures j < b < c && steps[b].BeginPass? && states[j].pass.Some?
    ensures var marked, collected := Secs(states[j].pass.value.now), Secs(states[c].pass.value.now);
      marked + grace <= collected || (marked == 0 && collected < grace)
    ensures p <= j || (var late := HeldLate(states[j], r, d); late) || (var wiped := WipedWithin(states, steps, r, p, c); wiped)
  {
    j := ContinuousQuiet(cfg, grace, states, steps, c, d);
    b := AnotherPassBegan(cfg, grace, states, steps, j, c, d);
    if j < p { MarkedBeforeThePlan(cfg, grace, states, steps, p, c, j, r, d); }
  }

  /** With timely marks and no wipe, the whole of it - mark, grace period, next pass - follows the plan. */
  lemma TimelyPushIsSafe(cfg: Config, grace: nat, states: seq<Sys>, steps: seq<Step>, p: nat, c: nat, r: RepoId, m: Digest, d: Digest) returns (j: nat, b: nat)
    requires IsRun(cfg, grace, states, steps) && p <= c < |steps| && Collects(states, steps, c, d)
    requires d in LinkedBlobs(states[p].store, r, cfg.doc(m).blobs)
    requires forall x :: 0 <= x < c ==> TimelyMark(states[x], steps[x], d)
    requires var wiped := WipedWithin(states, steps, r, p, c); !wiped
    ensures p <= j < b < c && Places(states[j], steps[j], d) && steps[b].BeginPass?
    ensures var marked, collected := Secs(states[j].pass.value.now), Secs(states[c].pass.value.now);
      marked + grace <= collected || (marked == 0 && collected < grace)
  {
    j, b := PushOutlastsTheGrace(cfg, grace, states, steps, p, c, r, d);
    assert TimelyMark(states[j], steps[j], d);
    LateOrTimely(states[j], steps[j], d);
  }
}
