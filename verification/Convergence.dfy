/**
 Left alone, purge converges: three passes a grace period apart leave exactly the blobs some
 manifest references, from any store whose stamps are not in the future.
 */
module Convergence {
  import opened Keys
  import opened Store
  import opened Registry
  import opened Invariants
  import opened Purge

  /** Memberships and marks hold their own records, and none is stamped after `bound`. */
  ghost predicate StampedBy(s: Data, bound: nat) {
    && (forall r: RepoId, d: Digest :: P(r, d) in s ==> s[P(r, d)].MemberV? && s[P(r, d)].addedAt <= bound)
    && (forall d: Digest :: C(d) in s ==> s[C(d)].MarkV? && s[C(d)].seenAt <= bound)
  }

  /** The pass removes no edge and no referenced blob, and creates no blob. */
  lemma PassSparesReferenced(s: Data, s': Data, now: Millis, grace: nat)
    requires PurgePass(s, s', now, grace)
    ensures forall k: Key :: k.R? ==> SameKey(s, s', k)
    ensures forall d: Digest :: Referenced(s', d) <==> Referenced(s, d)
    ensures forall r: RepoId, d: Digest :: ReferencedIn(s', d, r) <==> ReferencedIn(s, d, r)
    ensures forall d: Digest :: B(d) in s' ==> B(d) in s && s'[B(d)] == s[B(d)]
    ensures forall d: Digest :: B(d) in s && Referenced(s, d) ==> B(d) in s'
  {
    var cutoff := Ago(now, grace);
    var mid: Data :| Swept(s, mid, Pool(s, Members), cutoff) && Judged(mid, s', AllBlobs(mid), cutoff, now);
    forall k: Key | k.R? ensures SameKey(s, mid, k) && SameKey(s, s', k) {
      assert SweptEntry(s, mid, Pool(s, Members), cutoff, k) && JudgedEntry(mid, s', AllBlobs(mid), cutoff, now, k);
    }
    SameReferences(s, mid);
    SameReferences(s, s');
    forall d: Digest ensures (B(d) in s' ==> B(d) in s && s'[B(d)] == s[B(d)]) && (B(d) in s && Referenced(s, d) ==> B(d) in s') {
      assert SweptEntry(s, mid, Pool(s, Members), cutoff, B(d)) && JudgedEntry(mid, s', AllBlobs(mid), cutoff, now, B(d));
    }
  }

  lemma SameReferences(s: Data, s': Data)
    requires forall k: Key :: k.R? ==> SameKey(s, s', k)
    ensures forall d: Digest :: Referenced(s', d) <==> Referenced(s, d)
    ensures forall r: RepoId, d: Digest :: ReferencedIn(s', d, r) <==> ReferencedIn(s, d, r)
  {
    forall d: Digest ensures Referenced(s', d) <==> Referenced(s, d) {
      if Referenced(s, d) { var k :| k in s && InRange(k, RefsOf(d)); assert SameKey(s, s', k); }
      if Referenced(s', d) { var k :| k in s' && InRange(k, RefsOf(d)); assert SameKey(s, s', k); }
    }
    forall r: RepoId, d: Digest ensures ReferencedIn(s', d, r) <==> ReferencedIn(s, d, r) {
      if ReferencedIn(s, d, r) { var k :| k in s && InRange(k, RefsIn(d, r)); assert SameKey(s, s', k); }
      if ReferencedIn(s', d, r) { var k :| k in s' && InRange(k, RefsIn(d, r)); assert SameKey(s, s', k); }
    }
  }

  /** What one blob's clock reads after the membership stage. */
  lemma ClockAfterSweep(s: Data, mid: Data, cutoff: nat, d: Digest)
    requires Swept(s, mid, Pool(s, Members), cutoff)
    ensures SameKey(s, mid, B(d)) && (C(d) in mid ==> C(d) in s && mid[C(d)] == s[C(d)])
    ensures (forall r: RepoId :: P(r, d) in s ==> !Stale(s, P(r, d), cutoff)) ==> SameKey(s, mid, C(d))
    ensures forall r: RepoId :: P(r, d) in mid ==> P(r, d) in s && mid[P(r, d)] == s[P(r, d)] && !Stale(s, P(r, d), cutoff)
  {
    assert SweptEntry(s, mid, Pool(s, Members), cutoff, B(d)) && SweptEntry(s, mid, Pool(s, Members), cutoff, C(d));
    forall r: RepoId | P(r, d) in mid ensures P(r, d) in s && mid[P(r, d)] == s[P(r, d)] && !Stale(s, P(r, d), cutoff) {
      assert SweptEntry(s, mid, Pool(s, Members), cutoff, P(r, d));
    }
  }

  /** Stamps after a pass: nothing is later than the later of what was there and the pass's clock. */
  lemma StampsAfterPass(s: Data, s': Data, now: Millis, grace: nat, bound: nat)
    requires PurgePass(s, s', now, grace) && StampedBy(s, bound) && bound <= Secs(now)
    ensures StampedBy(s', Secs(now))
  {
    var cutoff := Ago(now, grace);
    var mid: Data :| Swept(s, mid, Pool(s, Members), cutoff) && Judged(mid, s', AllBlobs(mid), cutoff, now);
    forall r: RepoId, d: Digest | P(r, d) in s' ensures s'[P(r, d)].MemberV? && s'[P(r, d)].addedAt <= Secs(now) {
      assert JudgedEntry(mid, s', AllBlobs(mid), cutoff, now, P(r, d));
      ClockAfterSweep(s, mid, cutoff, d);
    }
    forall d: Digest | C(d) in s' ensures s'[C(d)].MarkV? && s'[C(d)].seenAt <= Secs(now) {
      assert JudgedEntry(mid, s', AllBlobs(mid), cutoff, now, C(d));
      ClockAfterSweep(s, mid, cutoff, d);
    }
  }

  /** Every membership left is earned by a reference in its own repository. */
  ghost predicate Earned(s: Data) {
    forall r: RepoId, d: Digest :: P(r, d) in s ==> ReferencedIn(s, d, r)
  }

  /** Every unreferenced blob carries a mark stamped by `bound`. */
  ghost predicate AllMarked(s: Data, bound: nat) {
    forall d: Digest :: B(d) in s && !Referenced(s, d) ==> Marked(s, d) && s[C(d)].seenAt <= bound
  }

  lemma Judgement(mid: Data, s': Data, cutoff: nat, now: Millis, d: Digest)
    requires Judged(mid, s', AllBlobs(mid), cutoff, now) && B(d) in mid
    ensures B(d) in s' <==> !Ripe(mid, d, cutoff)
    ensures B(d) in s' && !Referenced(mid, d) ==> C(d) in s' && s'[C(d)] == if C(d) in mid then mid[C(d)] else MarkV(Secs(now))
  {
    assert B(d) in mid && B(d).digest in AllBlobs(mid);
    assert JudgedEntry(mid, s', AllBlobs(mid), cutoff, now, B(d));
    assert JudgedEntry(mid, s', AllBlobs(mid), cutoff, now, C(d));
  }

  lemma JudgingLeavesMembers(mid: Data, s': Data, cutoff: nat, now: Millis)
    requires Judged(mid, s', AllBlobs(mid), cutoff, now)
    ensures forall k: Key :: k.P? ==> SameKey(mid, s', k)
  {
    forall k: Key | k.P? ensures SameKey(mid, s', k) { assert JudgedEntry(mid, s', AllBlobs(mid), cutoff, now, k); }
  }

  /** A pass whose cutoff has caught up with every stamp: unearned memberships go, and marks stand. */
  lemma SettlingPass(s: Data, s': Data, now: Millis, grace: nat, bound: nat)
    requires PurgePass(s, s', now, grace) && StampedBy(s, bound) && bound + grace <= Secs(now)
    ensures Earned(s') && AllMarked(s', Secs(now))
  {
    var cutoff := Ago(now, grace);
    var mid: Data :| Swept(s, mid, Pool(s, Members), cutoff) && Judged(mid, s', AllBlobs(mid), cutoff, now);
    PassSparesReferenced(s, s', now, grace);
    JudgingLeavesMembers(mid, s', cutoff, now);
    forall r: RepoId, d: Digest | P(r, d) in s' ensures ReferencedIn(s', d, r) {
      assert SameKey(mid, s', P(r, d));
      ClockAfterSweep(s, mid, cutoff, d);
      assert !Stale(s, P(r, d), cutoff);
    }
    SweepLeavesEdges(s, mid, cutoff);
    forall d: Digest | B(d) in s' && !Referenced(s', d) ensures Marked(s', d) && s'[C(d)].seenAt <= Secs(now) {
      ClockAfterSweep(s, mid, cutoff, d);
      assert JudgedEntry(mid, s', AllBlobs(mid), cutoff, now, B(d));
      Judgement(mid, s', cutoff, now, d);
    }
  }

  lemma SweepLeavesEdges(s: Data, mid: Data, cutoff: nat)
    requires Swept(s, mid, Pool(s, Members), cutoff)
    ensures forall d: Digest :: Referenced(mid, d) <==> Referenced(s, d)
  {
    forall k: Key | k.R? ensures SameKey(s, mid, k) { assert SweptEntry(s, mid, Pool(s, Members), cutoff, k); }
    SameReferences(s, mid);
  }

  /** Once memberships are earned and marks are mature, a pass collects every unreferenced blob. */
  lemma CollectingPass(s: Data, s': Data, now: Millis, grace: nat, bound: nat)
    requires PurgePass(s, s', now, grace) && Earned(s) && AllMarked(s, bound) && bound + grace <= Secs(now)
    ensures forall d: Digest :: B(d) in s' <==> B(d) in s && Referenced(s, d)
  {
    var cutoff := Ago(now, grace);
    var mid: Data :| Swept(s, mid, Pool(s, Members), cutoff) && Judged(mid, s', AllBlobs(mid), cutoff, now);
    PassSparesReferenced(s, s', now, grace);
    SweepLeavesEdges(s, mid, cutoff);
    forall d: Digest | B(d) in s && !Referenced(s, d) ensures B(d) !in s' {
      forall r: RepoId | P(r, d) in s ensures !Stale(s, P(r, d), cutoff) { assert ReferencedIn(s, d, r); }
      ClockAfterSweep(s, mid, cutoff, d);
      Judgement(mid, s', cutoff, now, d);
    }
  }

  /**
   Three request-free passes, each at least the grace period after the one before, leave exactly
   the blobs that have a reference; every edge and every referenced blob survives unchanged.
   */
  lemma ThreePassesConverge(s0: Data, s1: Data, s2: Data, s3: Data, t1: Millis, t2: Millis, t3: Millis, grace: nat)
    requires StampedBy(s0, Secs(t1)) && Secs(t1) + grace <= Secs(t2) && Secs(t2) + grace <= Secs(t3)
    requires PurgePass(s0, s1, t1, grace) && PurgePass(s1, s2, t2, grace) && PurgePass(s2, s3, t3, grace)
    ensures forall d: Digest :: B(d) in s3 <==> B(d) in s0 && Referenced(s0, d)
    ensures forall d: Digest :: B(d) in s3 ==> s3[B(d)] == s0[B(d)]
    ensures forall k: Key :: k.R? ==> SameKey(s0, s3, k)
  {
    PassSparesReferenced(s0, s1, t1, grace);
    PassSparesReferenced(s1, s2, t2, grace);
    PassSparesReferenced(s2, s3, t3, grace);
    StampsAfterPass(s0, s1, t1, grace, Secs(t1));
    SettlingPass(s1, s2, t2, grace, Secs(t1));
    CollectingPass(s2, s3, t3, grace, Secs(t2));
  }

  /** A blob uploaded as the first pass begins, whose manifest never comes. */
  function JustUploaded(d: Digest): Data {
    map[B(d) := BlobV(5), P(0, d) := MemberV(5, 100)]
  }

  /** Three is the least number: the second pass spends itself retracting the membership. */
  lemma TwoPassesAreNotEnough(d: Digest, s1: Data, s2: Data)
    requires PurgePass(JustUploaded(d), s1, 100_000, 10) && PurgePass(s1, s2, 110_000, 10)
    ensures StampedBy(JustUploaded(d), 100) && !Referenced(JustUploaded(d), d)
    ensures B(d) in s2
  {
    Uploaded(d);
    FirstPass(JustUploaded(d), s1, d);
    SecondPass(s1, s2, d);
  }

  lemma Uploaded(d: Digest)
    ensures StampedBy(JustUploaded(d), 100) && !Referenced(JustUploaded(d), d)
    ensures var s := JustUploaded(d); B(d) in s && C(d) !in s && P(0, d) in s && s[P(0, d)] == MemberV(5, 100)
  {}

  lemma FirstPass(s0: Data, s1: Data, d: Digest)
    requires PurgePass(s0, s1, 100_000, 10) && B(d) in s0 && C(d) !in s0 && !Referenced(s0, d)
    requires P(0, d) in s0 && s0[P(0, d)] == MemberV(5, 100)
    ensures B(d) in s1 && !Referenced(s1, d) && P(0, d) in s1 && s1[P(0, d)] == MemberV(5, 100)
  {
    PassSparesReferenced(s0, s1, 100_000, 10);
    var m1: Data :| Swept(s0, m1, Pool(s0, Members), 90) && Judged(m1, s1, AllBlobs(m1), 90, 100_000);
    ClockAfterSweep(s0, m1, 90, d);
    assert SweptEntry(s0, m1, Pool(s0, Members), 90, P(0, d));
    JudgingLeavesMembers(m1, s1, 90, 100_000);
    Judgement(m1, s1, 90, 100_000, d);
  }

  lemma SecondPass(s1: Data, s2: Data, d: Digest)
    requires PurgePass(s1, s2, 110_000, 10) && B(d) in s1 && !Referenced(s1, d)
    requires P(0, d) in s1 && s1[P(0, d)] == MemberV(5, 100)
    ensures B(d) in s2
  {
    var m2: Data :| Swept(s1, m2, Pool(s1, Members), 100) && Judged(m2, s2, AllBlobs(m2), 100, 110_000);
    ClockAfterSweep(s1, m2, 100, d);
    assert ReferencedIn(s1, d, 0) ==> Referenced(s1, d) by {
      if ReferencedIn(s1, d, 0) { var k :| k in s1 && InRange(k, RefsIn(d, 0)); assert InRange(k, RefsOf(d)); }
    }
    assert P(0, d) in Pool(s1, Members) && Stale(s1, P(0, d), 100) && P(0, d).digest == d;
    assert Unstarted(s1, Pool(s1, Members), 100, d);
    assert SweptEntry(s1, m2, Pool(s1, Members), 100, C(d));
    Judgement(m2, s2, 100, 110_000, d);
  }
}
