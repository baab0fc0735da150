/**
 Purge's marking with its read and its write apart. The scan of a page of blobs reads the
 references and the marks, and applies its batch later without a lock; calls go on in between.
 What is claimed of purge that survives the gap, and what does not.
 */
module SplitScan {
  import opened Results
  import opened Paging
  import opened Keys
  import opened Store
  import opened Interner
  import opened Registry
  import opened Invariants
  import opened IndexSteps
  import opened Requests
  import opened System
  import opened Runs

  /** The machine, and the batch of a page that has been read and not yet applied. */
  datatype Split = Split(sys: Sys, pending: Option<Effect>)

  datatype Move = Whole(step: Step) | ReadPage(limit: nat, page: Page<Key>) | ApplyPage

  /** Steps of the pass itself, which wait for its page to be applied. */
  predicate OfThePass(step: Step) {
    step.BeginPass? || step.MemberPage? || step.BlobPage? || step.Collect? || step.EndPass?
  }

  ghost predicate Moves(cfg: Config, grace: nat, s: Split, m: Move, s': Split) {
    match m
    case Whole(step) =>
      && !step.BlobPage? && (OfThePass(step) ==> s.pending.None?)
      && Next(cfg, grace, s.sys, step, s'.sys)
      && s'.pending == if step.Crash? then None else s.pending
    case ReadPage(limit, page) =>
      && s.pending.None? && s.sys.pass.Some? && s.sys.pass.value.members.Done? && s.sys.pass.value.blobs.At?
      && IsPage(Before, Pool(s.sys.store, Blobs), s.sys.pass.value.blobs.cursor, limit, page)
      && var p := s.sys.pass.value;
      s' == Split(s.sys.(pass := Some(p.(blobs := Resume(page),
                                         ripe := p.ripe + RipeIn(s.sys.store, BlobsOf(page.keys), p.cutoff),
                                         marked := p.marked + MarkedBy(s.sys.store, BlobsOf(page.keys))))),
                  Some(ScanBlobs(s.sys.store, BlobsOf(page.keys), p.now)))
    case ApplyPage =>
      s.pending.Some? && s' == Split(s.sys.(store := Perform(s.sys.store, s.pending.value)), None)
  }

  ghost predicate MovesAt(cfg: Config, grace: nat, states: seq<Split>, moves: seq<Move>, i: nat)
    requires |states| == |moves| + 1 && i < |moves|
  {
    Moves(cfg, grace, states[i], moves[i], states[i + 1])
  }

  ghost predicate SplitRun(cfg: Config, grace: nat, states: seq<Split>, moves: seq<Move>) {
    && |states| == |moves| + 1 && states[0] == Split(Boot, None)
    && forall i :: 0 <= i < |moves| ==> MovesAt(cfg, grace, states, moves, i)
  }

  // --- what a pending batch is ------------------------------------------

  /** The batch only moves marks, and places them at its own pass's clock. */
  ghost predicate MarksOnly(e: Effect, at: nat) {
    (forall k :: k in e.dels ==> k.C?) && (forall k :: k in e.puts ==> k.C? && e.puts[k] == MarkV(at))
  }

  ghost predicate SplitInv(grace: nat, s: Split) {
    && (s.sys.pass.Some? ==> s.sys.pass.value.cutoff == Ago(s.sys.pass.value.now, grace))
    && (s.pending.Some? ==> s.sys.pass.Some? && MarksOnly(s.pending.value, Secs(s.sys.pass.value.now)))
  }

  lemma MoveKeepsInv(cfg: Config, grace: nat, s: Split, m: Move, s': Split)
    requires SplitInv(grace, s) && Moves(cfg, grace, s, m, s')
    ensures SplitInv(grace, s')
  {}

  lemma {:induction false} SplitInvAt(cfg: Config, grace: nat, states: seq<Split>, moves: seq<Move>, i: nat)
    requires SplitRun(cfg, grace, states, moves) && i < |states|
    ensures SplitInv(grace, states[i])
  {
    if i > 0 {
      SplitInvAt(cfg, grace, states, moves, i - 1);
      assert MovesAt(cfg, grace, states, moves, i - 1);
      MoveKeepsInv(cfg, grace, states[i - 1], moves[i - 1], states[i]);
    }
  }

  // --- quiet survives ---------------------------------------------------

  ghost predicate Lands(s: Split, m: Move, d: Digest) {
    m.ApplyPage? && s.pending.Some? && C(d) in s.pending.value.puts
  }

  ghost predicate Disturbing(cfg: Config, s: Split, m: Move, d: Digest) {
    m.Whole? && Disturbs(cfg, s.sys, m.step, d)
  }

  ghost predicate Steady(s: Split, m: Move, s': Split, d: Digest) {
    forall r: RepoId ::
      if m.Whole? && Wipes(s.sys, m.step, r) then P(r, d) !in s'.sys.store else SameKey(s.sys.store, s'.sys.store, P(r, d))
  }

  lemma MoveMarks(cfg: Config, grace: nat, s: Split, m: Move, s': Split, d: Digest)
    requires SplitInv(grace, s) && Moves(cfg, grace, s, m, s') && C(d) in s'.sys.store
    ensures (MarkKept(s.sys.store, s'.sys.store, d) && !Disturbing(cfg, s, m, d))
         || (Lands(s, m, d) && s.sys.pass.Some? && MarkedAt(s'.sys, d, Secs(s.sys.pass.value.now)))
    ensures Steady(s, m, s', d)
  {
    if m.Whole? {
      StepMarks(cfg, grace, s.sys, m.step, s'.sys, d);
    } else if m.ApplyPage? {
      var e := s.pending.value;
      PerformAt(s.sys.store, e, C(d));
      forall r: RepoId ensures SameKey(s.sys.store, s'.sys.store, P(r, d)) { PerformAt(s.sys.store, e, P(r, d)); }
    }
  }

  ghost predicate SteadyMove(states: seq<Split>, moves: seq<Move>, d: Digest, k: nat)
    requires |states| == |moves| + 1 && k < |moves|
  {
    Steady(states[k], moves[k], states[k + 1], d)
  }

  /** The mark landed at move `j` and stands until state `i`, with nothing but wipes around the blob. */
  ghost predicate Undisturbed(cfg: Config, states: seq<Split>, moves: seq<Move>, d: Digest, j: nat, i: nat)
    requires |states| == |moves| + 1 && i < |states|
  {
    && j < i && states[j].sys.pass.Some? && Lands(states[j], moves[j], d)
    && (forall k :: j < k <= i ==> MarkedAt(states[k].sys, d, Secs(states[j].sys.pass.value.now)))
    && (forall k :: j < k < i ==> !Disturbing(cfg, states[k], moves[k], d))
    && (forall k :: j <= k < i ==> SteadyMove(states, moves, d, k))
  }

  lemma MarkMovesAt(cfg: Config, grace: nat, states: seq<Split>, moves: seq<Move>, i: nat, d: Digest)
    requires SplitRun(cfg, grace, states, moves) && i < |moves| && C(d) in states[i + 1].sys.store
    ensures (MarkKept(states[i].sys.store, states[i + 1].sys.store, d) && !Disturbing(cfg, states[i], moves[i], d))
         || (Lands(states[i], moves[i], d) && states[i].sys.pass.Some? && MarkedAt(states[i + 1].sys, d, Secs(states[i].sys.pass.value.now)))
    ensures var steady := SteadyMove(states, moves, d, i); steady
  {
    SplitInvAt(cfg, grace, states, moves, i);
    assert MovesAt(cfg, grace, states, moves, i);
    MoveMarks(cfg, grace, states[i], moves[i], states[i + 1], d);
  }

  lemma UndisturbedLonger(cfg: Config, states: seq<Split>, moves: seq<Move>, d: Digest, j: nat, i: nat)
    requires |states| == |moves| + 1 && i < |moves| && Undisturbed(cfg, states, moves, d, j, i)
    requires MarkKept(states[i].sys.store, states[i + 1].sys.store, d) && !Disturbing(cfg, states[i], moves[i], d)
    requires var steady := SteadyMove(states, moves, d, i); steady
    ensures var quiet := Undisturbed(cfg, states, moves, d, j, i + 1); quiet
  {
    assert MarkedAt(states[i].sys, d, Secs(states[j].sys.pass.value.now));
    forall k | j <= k < i + 1 ensures SteadyMove(states, moves, d, k) {}
  }

  lemma UndisturbedStarts(cfg: Config, states: seq<Split>, moves: seq<Move>, d: Digest, j: nat)
    requires |states| == |moves| + 1 && j < |moves| && states[j].sys.pass.Some? && Lands(states[j], moves[j], d)
    requires MarkedAt(states[j + 1].sys, d, Secs(states[j].sys.pass.value.now)) && (var steady := SteadyMove(states, moves, d, j); steady)
    ensures var quiet := Undisturbed(cfg, states, moves, d, j, j + 1); quiet
  {}

  lemma {:induction false} MarkHasLanded(cfg: Config, grace: nat, states: seq<Split>, moves: seq<Move>, i: nat, d: Digest) returns (j: nat)
    requires SplitRun(cfg, grace, states, moves) && i < |states| && C(d) in states[i].sys.store
    ensures var quiet := Undisturbed(cfg, states, moves, d, j, i); quiet
  {
    MarkMovesAt(cfg, grace, states, moves, i - 1, d);
    if Lands(states[i - 1], moves[i - 1], d) && states[i - 1].sys.pass.Some? && MarkedAt(states[i].sys, d, Secs(states[i - 1].sys.pass.value.now)) {
      j := i - 1;
      UndisturbedStarts(cfg, states, moves, d, j);
    } else {
      j := MarkHasLanded(cfg, grace, states, moves, i - 1, d);
      UndisturbedLonger(cfg, states, moves, d, j, i - 1);
    }
  }

  ghost predicate Reclaims(s: Split, m: Move, d: Digest) {
    m == Whole(Collect(d)) && s.sys.pass.Some? && Ripe(s.sys.store, d, s.sys.pass.value.cutoff)
  }

  /**
   Continuous quiet survives the gap, counted from the landing of the mark: behind every
   collection a mark landed at the clock of a pass a grace period earlier, and from there on the
   blob is undisturbed. And whatever raced, a collected blob has no reference.
   */
  lemma QuietSurvivesTheGap(cfg: Config, grace: nat, states: seq<Split>, moves: seq<Move>, i: nat, d: Digest) returns (j: nat)
    requires SplitRun(cfg, grace, states, moves) && i < |moves| && Reclaims(states[i], moves[i], d)
    ensures var quiet := Undisturbed(cfg, states, moves, d, j, i); quiet
    ensures !Referenced(states[i].sys.store, d)
    ensures j < i && states[j].sys.pass.Some?
    ensures var marked, collected := Secs(states[j].sys.pass.value.now), Secs(states[i].sys.pass.value.now);
      marked + grace <= collected || (marked == 0 && collected < grace)
  {
    SplitInvAt(cfg, grace, states, moves, i);
    j := MarkHasLanded(cfg, grace, states, moves, i, d);
    assert MarkedAt(states[i].sys, d, Secs(states[j].sys.pass.value.now));
  }

  // --- what does not ----------------------------------------------------

  /** The move is a push that writes a reference to the blob. */
  ghost predicate LinksTo(cfg: Config, s: Split, m: Move, d: Digest) {
    m.Whole? && m.step.Call? && m.step.req.PutManifest? && Touches(cfg, s.sys.store, m.step.req, d)
  }

  ghost predicate EdgesOnlyGo(s: Data, s': Data) {
    forall k: Key :: k.R? && k in s' ==> k in s
  }

  lemma NoNewEdges(s: Data, s': Data, d: Digest)
    requires EdgesOnlyGo(s, s') && !Referenced(s, d)
    ensures !Referenced(s', d)
  {}

  lemma EffectAddsNoEdge(s: Data, e: Effect)
    requires forall k :: k in e.puts ==> !k.R?
    ensures var gone := EdgesOnlyGo(s, Perform(s, e)); gone
  {
    forall k: Key | k.R? && k in Perform(s, e) ensures k in s { PerformAt(s, e, k); }
  }

  lemma PushLinks(cfg: Config, s: Data, s': Data, r: RepoId, m: Digest, tags: set<Tag>, now: Millis, d: Digest)
    requires Pushed(cfg, s, s', r, m, tags, now) && !Referenced(s, d) && Referenced(s', d)
    ensures d in LinkedBlobs(s, r, cfg.doc(m).blobs)
  {
    var k :| k in s' && InRange(k, RefsOf(d));
    assert k == R(d, k.repo, k.manifest) && k !in s;
  }

  lemma OtherPlansAddNoEdge(cfg: Config, s: Data, r: RepoId, req: Request)
    requires !req.PutManifest? && Plan(cfg, s, r, req).Some? && (req.RetireRepo? ==> IdOf(s, req.repo) == Some(r))
    ensures var gone := EdgesOnlyGo(s, Perform(s, Plan(cfg, s, r, req).value)); gone
  {
    if req.Retag? || req.Untag? { TagPlansAreTame(cfg, s, r, req); }
    else if req.RemoveManifest? || req.PurgeManifest? { DeletesAreTame(cfg, s, r, req.digest, req.now); }
    else if req.Commit? || req.Mount? || req.RemoveBlob? { BlobPlansAreTame(cfg, s, r, req); }
    else { NamePlansAreTame(cfg, s, r, req); }
    EffectAddsNoEdge(s, Plan(cfg, s, r, req).value);
  }

  lemma ArrivalAddsNoEdge(s: Data, req: Request, d: Digest)
    ensures EdgesOnlyGo(s, Arrive(s, req).0) && (Referenced(Arrive(s, req).0, d) <==> Referenced(s, d))
    ensures req.RetireRepo? ==> Arrive(s, req).1 == IdOf(Arrive(s, req).0, req.repo)
  {
    var s1 := Arrive(s, req).0;
    forall k: Key | k.R? ensures k in s <==> k in s1 {}
    if Referenced(s, d) { var k :| k in s && InRange(k, RefsOf(d)); assert k in s1; }
    if Referenced(s1, d) { var k :| k in s1 && InRange(k, RefsOf(d)); assert k in s; }
  }

  lemma CallLinks(cfg: Config, s: Data, req: Request, d: Digest)
    requires !Referenced(s, d) && Referenced(Serve(cfg, s, req), d)
    ensures req.PutManifest? && Touches(cfg, s, req, d)
  {
    ArrivalAddsNoEdge(s, req, d);
    if Batch(cfg, s, req).Some? {
      var s1, r := Arrive(s, req).0, Arrive(s, req).1.value;
      if req.PutManifest? {
        PushPlanIsPushed(cfg, s1, r, req);
        PushLinks(cfg, s1, Serve(cfg, s, req), r, req.digest, Elements(req.tags), req.now, d);
      } else {
        OtherPlansAddNoEdge(cfg, s1, r, req);
        NoNewEdges(s1, Serve(cfg, s, req), d);
        assert false;
      }
    }
  }

  lemma UpkeepAddsNoEdge(cfg: Config, grace: nat, s: Sys, step: Step, s': Sys)
    requires Next(cfg, grace, s, step, s') && !step.Call?
    ensures var gone := EdgesOnlyGo(s.store, s'.store); gone
  {
    match step {
      case MemberPage(_, page) => EffectAddsNoEdge(s.store, SweepMembers(s.store, Elements(page.keys), s.pass.value.cutoff));
      case BlobPage(_, page) => EffectAddsNoEdge(s.store, ScanBlobs(s.store, BlobsOf(page.keys), s.pass.value.now));
      case Collect(d) =>
        if CollectBlob(s.store, d, s.pass.value.cutoff).Some? { EffectAddsNoEdge(s.store, CollectBlob(s.store, d, s.pass.value.cutoff).value); }
      case SweepPage(_, page) => EffectAddsNoEdge(s.store, SweepRefs(s.store, s.sweep.value.id, ManifestsOf(page.keys)));
      case _ =>
    }
  }

  lemma MoveLinks(cfg: Config, grace: nat, s: Split, m: Move, s': Split, d: Digest)
    requires SplitInv(grace, s) && Moves(cfg, grace, s, m, s') && !Referenced(s.sys.store, d) && Referenced(s'.sys.store, d)
    ensures LinksTo(cfg, s, m, d)
  {
    if m.Whole? && m.step.Call? {
      CallLinks(cfg, s.sys.store, m.step.req, d);
    } else {
      if m.Whole? { UpkeepAddsNoEdge(cfg, grace, s.sys, m.step, s'.sys); }
      else if m.ApplyPage? { EffectAddsNoEdge(s.sys.store, s.pending.value); }
      NoNewEdges(s.sys.store, s'.sys.store, d);
      assert false;
    }
  }

  ghost predicate LinkedWithin(cfg: Config, states: seq<Split>, moves: seq<Move>, d: Digest, i: nat, j: nat)
    requires |states| == |moves| + 1 && j < |states|
  {
    exists k :: i <= k < j && LinksTo(cfg, states[k], moves[k], d)
  }

  /** A blob becomes referenced only by a push that links it. */
  lemma {:induction false} ReferencedOnlyByAPush(cfg: Config, grace: nat, states: seq<Split>, moves: seq<Move>, i: nat, j: nat, d: Digest)
    requires SplitRun(cfg, grace, states, moves) && i <= j < |states|
    requires !Referenced(states[i].sys.store, d) && !LinkedWithin(cfg, states, moves, d, i, j)
    ensures !Referenced(states[j].sys.store, d)
    decreases j
  {
    if i < j {
      assert forall k :: i <= k < j - 1 ==> !LinksTo(cfg, states[k], moves[k], d);
      ReferencedOnlyByAPush(cfg, grace, states, moves, i, j - 1, d);
      SplitInvAt(cfg, grace, states, moves, j - 1);
      assert MovesAt(cfg, grace, states, moves, j - 1);
      assert !LinksTo(cfg, states[j - 1], moves[j - 1], d);
      if Referenced(states[j].sys.store, d) { MoveLinks(cfg, grace, states[j - 1], moves[j - 1], states[j], d); }
    }
  }
}
