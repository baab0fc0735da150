/**
 The gap in purge's marking, used to the full. A page is read, a push references the blob, the mark
 lands all the same and outlives the reference; the next pass spares the membership because a
 manifest still references the blob, the manifest is deleted, and the blob is collected at once,
 on a mark a grace period old, out of a repository that has held it all along.
 */
module RacedMark {
  import opened Results
  import opened Paging
  import opened Keys
  import opened Store
  import opened Interner
  import opened Registry
  import opened Invariants
  import opened IndexSteps
  import opened Retractions
  import opened Requests
  import opened System
  import opened Runs
  import opened ClockSkew
  import opened WipedHolder
  import opened SplitScan

  /** The push of a manifest whose one layer is the blob, and its removal. */
  function Pushing(m: Digest): Request { PutManifest(Repo, m, None, [], 106_000) }

  function Removing(m: Digest): Request { RemoveManifest(Repo, m, 116_000) }

  predicate OneLayer(cfg: Config, m: Digest, b: Digest, size: nat) {
    cfg.doc(m) == Document([Descriptor(b, size, false)], [], None)
  }

  /** One repository, one blob it holds since 100, and at most one reference, by `m`. */
  ghost predicate Holding(s: Data, b: Digest, m: Digest, stored: bool) {
    && IdOf(s, Repo) == Some(0) && B(b) in s && P(0, b) in s && s[P(0, b)] == MemberV(5, 100)
    && (forall k: Key :: k in s && (k.B? || k.P? || k.R? || k.G?) ==> k == B(b) || k == P(0, b) || (stored && k == R(b, 0, m)))
    && (stored ==> R(b, 0, m) in s && M(0, m) in s)
  }

  lemma HoldingReads(s: Data, b: Digest, m: Digest, stored: bool)
    requires Holding(s, b, m, stored)
    ensures Pool(s, Members) == {P(0, b)} && Pool(s, Blobs) == {B(b)}
    ensures Referenced(s, b) == stored && ReferencedIn(s, b, 0) == stored
  {
    if stored { assert InRange(R(b, 0, m), RefsOf(b)) && InRange(R(b, 0, m), RefsIn(b, 0)); }
  }

  lemma UploadedHolds(b: Digest, m: Digest)
    ensures Holding(Uploaded(b), b, m, false)
  {}

  lemma UploadedIsSound(cfg: Config, b: Digest)
    ensures Inv(cfg, Uploaded(b))
  {
    EmptyStoreIsSound(cfg);
    ServeKeepsInv(cfg, map[], Commit(Repo, b, 5, None, 100_000));
    Upload(cfg, b);
  }

  lemma PushIsAllowed(cfg: Config, b: Digest, m: Digest, size: nat)
    requires OneLayer(cfg, m, b, size)
    ensures PushRefusal(cfg, Uploaded(b), 0, m, None, []).None? && LinkedBlobs(Uploaded(b), 0, cfg.doc(m).blobs) == {b}
  {
    var blobs := cfg.doc(m).blobs;
    assert Present(Uploaded(b), 0, blobs[0].digest);
    assert FirstMissingBlob(Uploaded(b), 0, blobs[1..]).None?;
  }

  lemma PushedEntryHolds(cfg: Config, s: Data, s': Data, b: Digest, m: Digest, size: nat, now: Millis)
    requires OneLayer(cfg, m, b, size) && Holding(s, b, m, false)
    requires forall k: Key :: PushEntry(cfg, s, s', 0, m, {b}, {}, now, k)
    ensures Holding(s', b, m, true) && C(b) !in s'
  {
    assert PushEntry(cfg, s, s', 0, m, {b}, {}, now, N(Repo)) && PushEntry(cfg, s, s', 0, m, {b}, {}, now, C(b));
    assert PushEntry(cfg, s, s', 0, m, {b}, {}, now, B(b)) && PushEntry(cfg, s, s', 0, m, {b}, {}, now, P(0, b));
    assert PushEntry(cfg, s, s', 0, m, {b}, {}, now, R(b, 0, m)) && PushEntry(cfg, s, s', 0, m, {b}, {}, now, M(0, m));
    forall k: Key | k in s' && (k.B? || k.P? || k.R? || k.G?) ensures k == B(b) || k == P(0, b) || k == R(b, 0, m) {
      assert PushEntry(cfg, s, s', 0, m, {b}, {}, now, k);
    }
  }

  ghost function AfterPush(cfg: Config, s: Data, m: Digest): Data {
    Perform(s, PushEffect(cfg, s, 0, m, {}, 106_000))
  }

  lemma PushIsServed(cfg: Config, s: Data, m: Digest)
    requires PushRefusal(cfg, s, 0, m, None, []).None? && IdOf(s, Repo) == Some(0)
    ensures var served := Serve(cfg, s, Pushing(m)) == AfterPush(cfg, s, m); served
  {
    assert Elements<Tag>([]) == {};
    AllowedPushIsServed(cfg, s, Pushing(m), s, 0, {});
  }

  lemma PushHolds(cfg: Config, s: Data, b: Digest, m: Digest, size: nat)
    requires OneLayer(cfg, m, b, size) && Holding(s, b, m, false) && LinkedBlobs(s, 0, cfg.doc(m).blobs) == {b}
    ensures Holding(AfterPush(cfg, s, m), b, m, true) && C(b) !in AfterPush(cfg, s, m)
  {
    forall k: Key ensures PushEntry(cfg, s, AfterPush(cfg, s, m), 0, m, {b}, {}, 106_000, k) {
      PushTouches(cfg, s, 0, m, {}, 106_000, k);
    }
    PushedEntryHolds(cfg, s, AfterPush(cfg, s, m), b, m, size, 106_000);
  }

  lemma ServedIsSound(cfg: Config, s: Data, req: Request, s': Data)
    requires Inv(cfg, s) && (var served := Serve(cfg, s, req) == s'; served)
    ensures var sound := Inv(cfg, s'); sound
  {
    ServeKeepsInv(cfg, s, req);
  }

  /** The push lands between the page's read and its write. */
  lemma PushHappens(cfg: Config, b: Digest, m: Digest, size: nat) returns (s2: Data)
    requires OneLayer(cfg, m, b, size)
    ensures var served := Serve(cfg, Uploaded(b), Pushing(m)) == s2; served
    ensures Holding(s2, b, m, true) && C(b) !in s2 && (var sound := Inv(cfg, s2); sound)
  {
    s2 := AfterPush(cfg, Uploaded(b), m);
    UploadedHolds(b, m);
    PushIsAllowed(cfg, b, m, size);
    PushIsServed(cfg, Uploaded(b), m);
    PushHolds(cfg, Uploaded(b), b, m, size);
    UploadedIsSound(cfg, b);
    ServedIsSound(cfg, Uploaded(b), Pushing(m), s2);
  }

  lemma MarkingKeeps(cfg: Config, s: Data, b: Digest, m: Digest)
    requires Holding(s, b, m, true) && Inv(cfg, s)
    ensures Holding(s[C(b) := MarkV(105)], b, m, true) && WellTyped(cfg, s[C(b) := MarkV(105)])
  {
    var s' := s[C(b) := MarkV(105)];
    forall k: Key | k != C(b) ensures SameKey(s, s', k) {}
  }

  lemma RemovedEntryHolds(cfg: Config, s: Data, s': Data, b: Digest, m: Digest, size: nat, now: Millis)
    requires OneLayer(cfg, m, b, size) && Holding(s, b, m, true)
    requires forall k: Key :: DropEntry(cfg, s, s', 0, m, {}, now, true, k)
    ensures Holding(s', b, m, false) && SameKey(s, s', C(b))
  {
    assert Layers(cfg.doc(m))[0] == b;
    assert DropEntry(cfg, s, s', 0, m, {}, now, true, N(Repo)) && DropEntry(cfg, s, s', 0, m, {}, now, true, C(b));
    assert DropEntry(cfg, s, s', 0, m, {}, now, true, B(b)) && DropEntry(cfg, s, s', 0, m, {}, now, true, P(0, b));
    forall k: Key | k in s' && (k.B? || k.P? || k.R? || k.G?) ensures k == B(b) || k == P(0, b) {
      assert DropEntry(cfg, s, s', 0, m, {}, now, true, k);
    }
  }

  lemma RemovalPlan(cfg: Config, s: Data, b: Digest, m: Digest)
    requires Holding(s, b, m, true) && WellTyped(cfg, s)
    ensures var e := Effect(DeleteManifestDels(cfg, s, 0, m, s[M(0, m)], {}), TagEvents(0, {}, m, 116_000, Deleted));
      (var planned := Plan(cfg, s, 0, Removing(m)) == Some(e); planned)
  {
    forall t: Tag ensures t !in TagsPointingAt(s, 0, m) { TagsPointing(s, 0, m, t); }
    assert TagsPointingAt(s, 0, m) == {};
  }

  /** The manifest goes again, and leaves the mark where it is. */
  lemma RemovalHappens(cfg: Config, s: Data, b: Digest, m: Digest, size: nat) returns (s4: Data)
    requires OneLayer(cfg, m, b, size) && Holding(s, b, m, true) && WellTyped(cfg, s)
    ensures var served := Serve(cfg, s, Removing(m)) == s4; served
    ensures Holding(s4, b, m, false) && SameKey(s, s4, C(b))
  {
    var e := Effect(DeleteManifestDels(cfg, s, 0, m, s[M(0, m)], {}), TagEvents(0, {}, m, 116_000, Deleted));
    RemovalPlan(cfg, s, b, m);
    assert Arrive(s, Removing(m)) == (s, Some(0));
    ServeApplies(cfg, s, Removing(m), s, 0, e);
    s4 := Perform(s, e);
    forall k: Key ensures DropEntry(cfg, s, s4, 0, m, {}, 116_000, true, k) { DeleteManifestTouches(cfg, s, 0, m, {}, 116_000, k); }
    RemovedEntryHolds(cfg, s, s4, b, m, size, 116_000);
  }

  // --- the run ----------------------------------------------------------

  function FirstPass(members: Walk<Key>, blobs: Walk<Key>, marked: set<Digest>): Option<Pass> {
    Some(Pass(105_000, 95, members, blobs, {}, marked))
  }

  function NextPass(members: Walk<Key>, blobs: Walk<Key>, ripe: set<Digest>): Option<Pass> {
    Some(Pass(115_000, 105, members, blobs, ripe, {}))
  }

  function Idle(s: Data, p: Option<Pass>): Split { Split(Sys(s, p, None), None) }

  /** The page's batch: one mark, or nothing. */
  function OneMark(b: Digest): Effect { Effect({}, map[C(b) := MarkV(105)]) }

  ghost predicate Goes(cfg: Config, s: Split, m: Move, s': Split) { Moves(cfg, 10, s, m, s') }

  lemma CallGoes(cfg: Config, s: Split, req: Request, after: Data)
    requires var served := Serve(cfg, s.sys.store, req) == after; served
    ensures var goes := Goes(cfg, s, Whole(Call(req)), s.(sys := s.sys.(store := after))); goes
  {}

  /** A membership page that takes nothing: the one membership is young, or its blob is referenced. */
  lemma MembershipSpared(cfg: Config, s: Data, p: Pass, b: Digest, m: Digest, stored: bool)
    requires Holding(s, b, m, stored) && (stored || p.cutoff < 100) && p.members == At(None)
    ensures var goes := Goes(cfg, Idle(s, Some(p)), Whole(MemberPage(1, Page([P(0, b)], None))), Idle(s, Some(p.(members := Done)))); goes
  {
    HoldingReads(s, b, m, stored);
    OnlyKey(s, Members, P(0, b));
    forall k | k in Elements([P(0, b)]) ensures !Stale(s, k, p.cutoff) {}
    assert SweepMembers(s, Elements([P(0, b)]), p.cutoff).dels == {};
    assert Perform(s, SweepMembers(s, Elements([P(0, b)]), p.cutoff)) == s;
  }

  lemma ScanSets(s: Data, b: Digest, p: Pass, marked: bool)
    requires !Referenced(s, b) && B(b) in s && p.cutoff == (if marked then 105 else 95) && p.now == (if marked then 115_000 else 105_000)
    requires if marked then C(b) in s && s[C(b)] == MarkV(105) else C(b) !in s
    ensures ScanBlobs(s, {b}, p.now) == if marked then Effect({}, map[]) else OneMark(b)
    ensures RipeIn(s, {b}, p.cutoff) == (if marked then {b} else {}) && MarkedBy(s, {b}) == if marked then {} else {b}
  {
    assert ScanBlobs(s, {b}, p.now).dels == {};
    assert ScanBlobs(s, {b}, p.now).puts == if marked then map[] else map[C(b) := MarkV(105)];
  }

  lemma FirstRead(cfg: Config, b: Digest)
    ensures var goes := Goes(cfg, Idle(Uploaded(b), FirstPass(Done, At(None), {})), ReadPage(1, Page([B(b)], None)),
                             Split(Sys(Uploaded(b), FirstPass(Done, Done, {b}), None), Some(OneMark(b)))); goes
  {
    Pools(b);
    OnlyKey(Uploaded(b), Blobs, B(b));
    OneBlob(b);
    ScanSets(Uploaded(b), b, FirstPass(Done, At(None), {}).value, false);
  }

  lemma SecondRead(cfg: Config, s: Data, b: Digest, m: Digest)
    requires Holding(s, b, m, false) && C(b) in s && s[C(b)] == MarkV(105)
    ensures var goes := Goes(cfg, Idle(s, NextPass(Done, At(None), {})), ReadPage(1, Page([B(b)], None)),
                             Split(Sys(s, NextPass(Done, Done, {b}), None), Some(Effect({}, map[])))); goes
  {
    Pools(b);
    HoldingReads(s, b, m, false);
    OnlyKey(s, Blobs, B(b));
    OneBlob(b);
    ScanSets(s, b, NextPass(Done, At(None), {}).value, true);
  }

  lemma MarkLands(cfg: Config, s: Data, b: Digest, p: Option<Pass>)
    ensures var goes := Goes(cfg, Split(Sys(s, p, None), Some(OneMark(b))), ApplyPage, Idle(s[C(b) := MarkV(105)], p)); goes
  {
    assert Perform(s, OneMark(b)) == s[C(b) := MarkV(105)];
  }

  lemma NothingLands(cfg: Config, s: Data, p: Option<Pass>)
    ensures var goes := Goes(cfg, Split(Sys(s, p, None), Some(Effect({}, map[]))), ApplyPage, Idle(s, p)); goes
  {
    assert Perform(s, Effect({}, map[])) == s;
  }

  lemma PassGoes(cfg: Config, s: Data, b: Digest)
    ensures var goes := Goes(cfg, Idle(s, None), Whole(BeginPass(105_000)), Idle(s, FirstPass(At(None), At(None), {}))); goes
    ensures var goes := Goes(cfg, Idle(s, FirstPass(Done, Done, {b})), Whole(EndPass), Idle(s, None)); goes
    ensures var goes := Goes(cfg, Idle(s, None), Whole(BeginPass(115_000)), Idle(s, NextPass(At(None), At(None), {}))); goes
  {}

  // --- reaching it ------------------------------------------------------

  /** Some run of the machine, with ten seconds of grace, comes to this state. */
  ghost predicate Reached(cfg: Config, s: Split) {
    exists states: seq<Split>, moves: seq<Move> :: SplitRun(cfg, 10, states, moves) && states[|moves|] == s
  }

  lemma ReachedOn(cfg: Config, s: Split, m: Move, s': Split)
    requires (var reached := Reached(cfg, s); reached) && (var goes := Goes(cfg, s, m, s'); goes)
    ensures var reached := Reached(cfg, s'); reached
  {
    var states: seq<Split>, moves: seq<Move> :| SplitRun(cfg, 10, states, moves) && states[|moves|] == s;
    var states', moves' := states + [s'], moves + [m];
    forall i | 0 <= i < |moves'| ensures MovesAt(cfg, 10, states', moves', i) {
      if i < |moves| { assert MovesAt(cfg, 10, states, moves, i); }
    }
    assert SplitRun(cfg, 10, states', moves') && states'[|moves'|] == s';
  }

  lemma BootIsReached(cfg: Config)
    ensures var reached := Reached(cfg, Split(Boot, None)); reached
  {
    var states, moves: seq<Move> := [Split(Boot, None)], [];
    assert SplitRun(cfg, 10, states, moves) && states[|moves|] == Split(Boot, None);
  }

  lemma UploadReached(cfg: Config, b: Digest)
    ensures var reached := Reached(cfg, Idle(Uploaded(b), None)); reached
  {
    BootIsReached(cfg);
    Upload(cfg, b);
    CallGoes(cfg, Split(Boot, None), Commit(Repo, b, 5, None, 100_000), Uploaded(b));
    ReachedOn(cfg, Split(Boot, None), Whole(Call(Commit(Repo, b, 5, None, 100_000))), Idle(Uploaded(b), None));
  }

  lemma PassReached(cfg: Config, b: Digest)
    ensures var reached := Reached(cfg, Idle(Uploaded(b), FirstPass(At(None), At(None), {}))); reached
  {
    UploadReached(cfg, b);
    PassGoes(cfg, Uploaded(b), b);
    ReachedOn(cfg, Idle(Uploaded(b), None), Whole(BeginPass(105_000)), Idle(Uploaded(b), FirstPass(At(None), At(None), {})));
  }

  lemma WalkReached(cfg: Config, b: Digest, m: Digest)
    ensures var reached := Reached(cfg, Idle(Uploaded(b), FirstPass(Done, At(None), {}))); reached
  {
    PassReached(cfg, b);
    UploadedHolds(b, m);
    MembershipSpared(cfg, Uploaded(b), FirstPass(At(None), At(None), {}).value, b, m, false);
    ReachedOn(cfg, Idle(Uploaded(b), FirstPass(At(None), At(None), {})), Whole(MemberPage(1, Page([P(0, b)], None))), Idle(Uploaded(b), FirstPass(Done, At(None), {})));
  }

  lemma ReadReached(cfg: Config, b: Digest, m: Digest)
    ensures var reached := Reached(cfg, Split(Sys(Uploaded(b), FirstPass(Done, Done, {b}), None), Some(OneMark(b)))); reached
  {
    WalkReached(cfg, b, m);
    FirstRead(cfg, b);
    ReachedOn(cfg, Idle(Uploaded(b), FirstPass(Done, At(None), {})), ReadPage(1, Page([B(b)], None)),
              Split(Sys(Uploaded(b), FirstPass(Done, Done, {b}), None), Some(OneMark(b))));
  }

  /** The push is served while the page is pending. */
  lemma PushReached(cfg: Config, b: Digest, m: Digest, s2: Data)
    requires var served := Serve(cfg, Uploaded(b), Pushing(m)) == s2; served
    ensures var reached := Reached(cfg, Split(Sys(s2, FirstPass(Done, Done, {b}), None), Some(OneMark(b)))); reached
  {
    ReadReached(cfg, b, m);
    var s := Split(Sys(Uploaded(b), FirstPass(Done, Done, {b}), None), Some(OneMark(b)));
    CallGoes(cfg, s, Pushing(m), s2);
    ReachedOn(cfg, s, Whole(Call(Pushing(m))), Split(Sys(s2, FirstPass(Done, Done, {b}), None), Some(OneMark(b))));
  }

  /** The mark lands on a blob that a manifest references by now. */
  lemma MarkReached(cfg: Config, b: Digest, m: Digest, size: nat) returns (s3: Data)
    requires OneLayer(cfg, m, b, size)
    ensures var reached := Reached(cfg, Idle(s3, FirstPass(Done, Done, {b}))); reached
    ensures Holding(s3, b, m, true) && WellTyped(cfg, s3) && C(b) in s3 && s3[C(b)] == MarkV(105)
  {
    var s2 := PushHappens(cfg, b, m, size);
    PushReached(cfg, b, m, s2);
    MarkingKeeps(cfg, s2, b, m);
    MarkLands(cfg, s2, b, FirstPass(Done, Done, {b}));
    s3 := s2[C(b) := MarkV(105)];
    ReachedOn(cfg, Split(Sys(s2, FirstPass(Done, Done, {b}), None), Some(OneMark(b))), ApplyPage, Idle(s3, FirstPass(Done, Done, {b})));
  }

  /** The next pass finds the membership old and the blob referenced, and passes it by. */
  lemma SpareReached(cfg: Config, s: Data, b: Digest, m: Digest)
    requires (var reached := Reached(cfg, Idle(s, FirstPass(Done, Done, {b}))); reached) && Holding(s, b, m, true)
    ensures var reached := Reached(cfg, Idle(s, NextPass(Done, At(None), {}))); reached
  {
    PassGoes(cfg, s, b);
    ReachedOn(cfg, Idle(s, FirstPass(Done, Done, {b})), Whole(EndPass), Idle(s, None));
    ReachedOn(cfg, Idle(s, None), Whole(BeginPass(115_000)), Idle(s, NextPass(At(None), At(None), {})));
    MembershipSpared(cfg, s, NextPass(At(None), At(None), {}).value, b, m, true);
    ReachedOn(cfg, Idle(s, NextPass(At(None), At(None), {})), Whole(MemberPage(1, Page([P(0, b)], None))), Idle(s, NextPass(Done, At(None), {})));
  }

  lemma RemovalReached(cfg: Config, s: Data, s': Data, b: Digest, m: Digest)
    requires (var reached := Reached(cfg, Idle(s, NextPass(Done, At(None), {}))); reached) && (var served := Serve(cfg, s, Removing(m)) == s'; served)
    ensures var reached := Reached(cfg, Idle(s', NextPass(Done, At(None), {}))); reached
  {
    CallGoes(cfg, Idle(s, NextPass(Done, At(None), {})), Removing(m), s');
    ReachedOn(cfg, Idle(s, NextPass(Done, At(None), {})), Whole(Call(Removing(m))), Idle(s', NextPass(Done, At(None), {})));
  }

  lemma RipeReached(cfg: Config, s: Data, b: Digest, m: Digest)
    requires (var reached := Reached(cfg, Idle(s, NextPass(Done, At(None), {}))); reached)
    requires Holding(s, b, m, false) && C(b) in s && s[C(b)] == MarkV(105)
    ensures var reached := Reached(cfg, Idle(s, NextPass(Done, Done, {b}))); reached
  {
    SecondRead(cfg, s, b, m);
    ReachedOn(cfg, Idle(s, NextPass(Done, At(None), {})), ReadPage(1, Page([B(b)], None)), Split(Sys(s, NextPass(Done, Done, {b}), None), Some(Effect({}, map[]))));
    NothingLands(cfg, s, NextPass(Done, Done, {b}));
    ReachedOn(cfg, Split(Sys(s, NextPass(Done, Done, {b}), None), Some(Effect({}, map[]))), ApplyPage, Idle(s, NextPass(Done, Done, {b})));
  }

  /** A mark and a reference on one blob: what `MarkedIsUnreferenced` rules out when a page is one step. */
  lemma MarkOnReferencedBlob(cfg: Config, b: Digest, m: Digest, size: nat) returns (s: Split)
    requires OneLayer(cfg, m, b, size)
    ensures var reached := Reached(cfg, s); reached
    ensures C(b) in s.sys.store && Referenced(s.sys.store, b)
  {
    var s3 := MarkReached(cfg, b, m, size);
    HoldingReads(s3, b, m, true);
    s := Idle(s3, FirstPass(Done, Done, {b}));
  }

  /**
   The same mark, a pass later: the manifest is deleted after the membership walk has spared the
   blob for its sake, and the blob is collected although its repository has held it since before
   the cutoff - which is what `PurgeSafety` rules out when a page is one step.
   */
  lemma MarkOutlivesItsReason(cfg: Config, b: Digest, m: Digest, size: nat) returns (s: Split)
    requires OneLayer(cfg, m, b, size)
    ensures var reached := Reached(cfg, s); reached
    ensures Reclaims(s, Whole(Collect(b)), b) && b in s.sys.pass.value.ripe
    ensures P(0, b) in s.sys.store && s.sys.store[P(0, b)] == MemberV(5, 100) && s.sys.pass.value.cutoff == 105
  {
    var s3 := MarkReached(cfg, b, m, size);
    SpareReached(cfg, s3, b, m);
    var s4 := RemovalHappens(cfg, s3, b, m, size);
    RemovalReached(cfg, s3, s4, b, m);
    RipeReached(cfg, s4, b, m);
    HoldingReads(s4, b, m, false);
    s := Idle(s4, NextPass(Done, Done, {b}));
  }
}
