/**
 What the gap between a marking page's read and its write costs, exactly. A mark and a reference
 come to stand together only when the mark lands on a reference that a push wrote while the mark
 was pending, and a collection takes a blob from an old holder only when its own pass had spared
 that holder for a reference the mark should not have outlived. Where no such push comes, all that
 holds of one-step marking holds here.
 */
module MarkingGap {
  import opened Results
  import opened Paging
  import opened Keys
  import opened Store
  import opened Registry
  import opened Invariants
  import opened IndexSteps
  import opened Requests
  import opened Upkeep
  import opened System
  import opened Runs
  import opened SplitScan

  // --- marks and references ---------------------------------------------

  /** The page read at move `k` is the one still pending at state `j`. */
  ghost predicate PendingFrom(states: seq<Split>, moves: seq<Move>, k: nat, j: nat)
    requires |states| == |moves| + 1 && j < |states|
  {
    && k < j && moves[k].ReadPage? && states[k].sys.pass.Some?
    && forall x :: k < x <= j ==>
         states[x].pending == Some(ScanBlobs(states[k].sys.store, BlobsOf(moves[k].page.keys), states[k].sys.pass.value.now))
  }

  lemma {:induction false} PendingWasRead(cfg: Config, grace: nat, states: seq<Split>, moves: seq<Move>, j: nat) returns (k: nat)
    requires SplitRun(cfg, grace, states, moves) && j < |states| && states[j].pending.Some?
    ensures var from := PendingFrom(states, moves, k, j); from
  {
    assert MovesAt(cfg, grace, states, moves, j - 1);
    if moves[j - 1].ReadPage? {
      k := j - 1;
    } else {
      k := PendingWasRead(cfg, grace, states, moves, j - 1);
    }
  }

  /** What a page's read had to say of a blob whose mark it asks for. */
  lemma PendingWasUnreferenced(states: seq<Split>, moves: seq<Move>, k: nat, j: nat, d: Digest)
    requires |states| == |moves| + 1 && j < |states| && PendingFrom(states, moves, k, j)
    requires states[j].pending.Some? && C(d) in states[j].pending.value.puts
    ensures d in MarkedBy(states[k].sys.store, BlobsOf(moves[k].page.keys)) && !Referenced(states[k].sys.store, d)
    ensures forall x :: k < x <= j ==> states[x].pending.Some? && C(d) in states[x].pending.value.puts
  {}

  /** A push links the blob while its mark is pending. */
  ghost predicate Races(cfg: Config, s: Split, m: Move, d: Digest) {
    s.pending.Some? && C(d) in s.pending.value.puts && LinksTo(cfg, s, m, d)
  }

  ghost predicate RacedWithin(cfg: Config, states: seq<Split>, moves: seq<Move>, d: Digest, k: nat, j: nat)
    requires |states| == |moves| + 1 && j < |states|
  {
    exists x :: k <= x < j && Races(cfg, states[x], moves[x], d)
  }

  /** A mark that lands on a referenced blob was overtaken, between its read and its write, by a push of the blob. */
  lemma LandsOnlyByARace(cfg: Config, grace: nat, states: seq<Split>, moves: seq<Move>, j: nat, d: Digest) returns (k: nat)
    requires SplitRun(cfg, grace, states, moves) && j < |moves| && Lands(states[j], moves[j], d) && Referenced(states[j].sys.store, d)
    ensures var from := PendingFrom(states, moves, k, j); from
    ensures k < j && !Referenced(states[k].sys.store, d) && (var raced := RacedWithin(cfg, states, moves, d, k, j); raced)
  {
    k := PendingWasRead(cfg, grace, states, moves, j);
    PendingWasUnreferenced(states, moves, k, j, d);
    ReadingChangesNothing(cfg, grace, states, moves, k, j);
    var x := TheRace(cfg, grace, states, moves, k + 1, j, d);
    RaceIsWithin(cfg, states, moves, d, k, j, x);
  }

  lemma ReadingChangesNothing(cfg: Config, grace: nat, states: seq<Split>, moves: seq<Move>, k: nat, j: nat)
    requires SplitRun(cfg, grace, states, moves) && j < |states| && PendingFrom(states, moves, k, j)
    ensures states[k + 1].sys.store == states[k].sys.store
  {
    assert MovesAt(cfg, grace, states, moves, k);
  }

  /** Between a pending page's read and its write, what references the blob is a push that races its mark. */
  lemma {:induction false} TheRace(cfg: Config, grace: nat, states: seq<Split>, moves: seq<Move>, k: nat, j: nat, d: Digest) returns (x: nat)
    requires SplitRun(cfg, grace, states, moves) && k <= j < |states|
    requires forall y :: k <= y <= j ==> states[y].pending.Some? && C(d) in states[y].pending.value.puts
    requires !Referenced(states[k].sys.store, d) && Referenced(states[j].sys.store, d)
    ensures k <= x < j && (var races := Races(cfg, states[x], moves[x], d); races)
    decreases j
  {
    if Referenced(states[j - 1].sys.store, d) {
      x := TheRace(cfg, grace, states, moves, k, j - 1, d);
    } else {
      x := j - 1;
      SplitInvAt(cfg, grace, states, moves, x);
      assert MovesAt(cfg, grace, states, moves, x);
      ReferencingRaces(cfg, grace, states[x], moves[x], states[j], d);
    }
  }

  lemma ReferencingRaces(cfg: Config, grace: nat, s: Split, m: Move, s': Split, d: Digest)
    requires SplitInv(grace, s) && Moves(cfg, grace, s, m, s') && !Referenced(s.sys.store, d) && Referenced(s'.sys.store, d)
    requires s.pending.Some? && C(d) in s.pending.value.puts
    ensures var races := Races(cfg, s, m, d); races
  {
    MoveLinks(cfg, grace, s, m, s', d);
  }

  lemma RaceIsWithin(cfg: Config, states: seq<Split>, moves: seq<Move>, d: Digest, k: nat, j: nat, x: nat)
    requires |states| == |moves| + 1 && k <= x < j < |states| && (var races := Races(cfg, states[x], moves[x], d); races)
    ensures var raced := RacedWithin(cfg, states, moves, d, k, j); raced
  {}

  lemma RacedWider(cfg: Config, states: seq<Split>, moves: seq<Move>, d: Digest, k: nat, j: nat, i: nat)
    requires |states| == |moves| + 1 && j <= i < |states| && RacedWithin(cfg, states, moves, d, k, j)
    ensures var raced := RacedWithin(cfg, states, moves, d, 0, i); raced
  {
    var x :| k <= x < j && Races(cfg, states[x], moves[x], d);
  }

  /** From a landing on, a blob the mark leaves undisturbed gains no reference. */
  lemma LandedOnIt(cfg: Config, grace: nat, states: seq<Split>, moves: seq<Move>, j: nat, i: nat, d: Digest)
    requires SplitRun(cfg, grace, states, moves) && i < |states| && Undisturbed(cfg, states, moves, d, j, i)
    requires Referenced(states[i].sys.store, d)
    ensures Referenced(states[j].sys.store, d)
  {
    if !Referenced(states[j].sys.store, d) {
      forall x | j <= x < i ensures !LinksTo(cfg, states[x], moves[x], d) { assert x == j || !Disturbing(cfg, states[x], moves[x], d); }
      ReferencedOnlyByAPush(cfg, grace, states, moves, j, i, d);
    }
  }

  /**
   A mark and a reference stand together: then a page read the blob unreferenced, a push linked it
   while the page was pending, the mark landed on the reference, and has stood undisturbed since.
   */
  lemma MarkMeetsReference(cfg: Config, grace: nat, states: seq<Split>, moves: seq<Move>, i: nat, d: Digest) returns (k: nat, j: nat)
    requires SplitRun(cfg, grace, states, moves) && i < |states| && C(d) in states[i].sys.store && Referenced(states[i].sys.store, d)
    ensures var quiet := Undisturbed(cfg, states, moves, d, j, i); quiet
    ensures j < i && (var from := PendingFrom(states, moves, k, j); from)
    ensures k < j && !Referenced(states[k].sys.store, d) && Referenced(states[j].sys.store, d)
    ensures var raced := RacedWithin(cfg, states, moves, d, k, j); raced
  {
    j := MarkHasLanded(cfg, grace, states, moves, i, d);
    LandedOnIt(cfg, grace, states, moves, j, i, d);
    k := LandsOnlyByARace(cfg, grace, states, moves, j, d);
  }

  /** Landing on a reference leaves both standing. */
  lemma LandingOnAReference(cfg: Config, grace: nat, states: seq<Split>, moves: seq<Move>, j: nat, d: Digest)
    requires SplitRun(cfg, grace, states, moves) && j < |moves| && Lands(states[j], moves[j], d) && Referenced(states[j].sys.store, d)
    ensures C(d) in states[j + 1].sys.store && Referenced(states[j + 1].sys.store, d)
  {
    SplitInvAt(cfg, grace, states, moves, j);
    assert MovesAt(cfg, grace, states, moves, j);
    var e, s := states[j].pending.value, states[j].sys.store;
    PerformAt(s, e, C(d));
    var k :| k in s && InRange(k, RefsOf(d));
    PerformAt(s, e, k);
  }

  ghost predicate UnreferencedIfMarked(s: Split, d: Digest) { C(d) in s.sys.store ==> !Referenced(s.sys.store, d) }

  ghost predicate LandsClear(s: Split, m: Move, d: Digest) { Lands(s, m, d) ==> !Referenced(s.sys.store, d) }

  lemma LandedUnclear(cfg: Config, grace: nat, states: seq<Split>, moves: seq<Move>, i: nat, d: Digest)
    requires SplitRun(cfg, grace, states, moves) && i < |states| && !UnreferencedIfMarked(states[i], d)
    ensures exists j :: 0 <= j < i && !LandsClear(states[j], moves[j], d)
  {
    var k, j := MarkMeetsReference(cfg, grace, states, moves, i, d);
    assert !LandsClear(states[j], moves[j], d);
  }

  /**
   Exactly when no marked blob is referenced: in every state of a run up to the `n`th, if and only
   if no mark of the blob landed on a reference before it.
   */
  lemma MarkedIsUnreferencedIff(cfg: Config, grace: nat, states: seq<Split>, moves: seq<Move>, n: nat, d: Digest)
    requires SplitRun(cfg, grace, states, moves) && n < |states|
    ensures (forall i :: 0 <= i <= n ==> UnreferencedIfMarked(states[i], d)) <==> (forall j :: 0 <= j < n ==> LandsClear(states[j], moves[j], d))
  {
    if forall i :: 0 <= i <= n ==> UnreferencedIfMarked(states[i], d) {
      forall j | 0 <= j < n ensures LandsClear(states[j], moves[j], d) {
        assert UnreferencedIfMarked(states[j + 1], d);
        if !LandsClear(states[j], moves[j], d) { LandingOnAReference(cfg, grace, states, moves, j, d); }
      }
    }
    if forall j :: 0 <= j < n ==> LandsClear(states[j], moves[j], d) {
      forall i | 0 <= i <= n ensures UnreferencedIfMarked(states[i], d) {
        if !UnreferencedIfMarked(states[i], d) { LandedUnclear(cfg, grace, states, moves, i, d); }
      }
    }
  }

  // --- one pass ---------------------------------------------------------

  /** The blob walk meets each blob once, so a pass never finds ripe what it has itself marked. */
  ghost predicate WalkInv(s: Split) {
    && (s.sys.pass.Some? ==> PassWalk(s.sys.pass.value))
    && (s.pending.Some? ==> s.sys.pass.Some? && forall d: Digest :: C(d) in s.pending.value.puts ==> d in s.sys.pass.value.marked)
  }

  ghost predicate PassWalk(p: Pass) {
    (forall d: Digest :: d in p.ripe || d in p.marked ==> Passed(Before, p.blobs, B(d)) && p.members.Done?) && p.ripe !! p.marked
  }

  lemma ReadKeepsWalk(s: Data, p: Pass, limit: nat, page: Page<Key>)
    requires PassWalk(p) && p.members.Done? && p.blobs.At? && IsPage(Before, Pool(s, Blobs), p.blobs.cursor, limit, page)
    ensures PassWalk(p.(blobs := Resume(page), ripe := p.ripe + RipeIn(s, BlobsOf(page.keys), p.cutoff),
                        marked := p.marked + MarkedBy(s, BlobsOf(page.keys))))
  {
    KeysAreOrdered();
    forall d: Digest ensures d in BlobsOf(page.keys) ==> Passed(Before, Resume(page), B(d)) && !Passed(Before, p.blobs, B(d))
      ensures Passed(Before, p.blobs, B(d)) ==> Passed(Before, Resume(page), B(d))
    {
      PageCovers(Before, Pool(s, Blobs), p.blobs, limit, page, B(d));
    }
    assert (p.ripe + RipeIn(s, BlobsOf(page.keys), p.cutoff)) !! (p.marked + MarkedBy(s, BlobsOf(page.keys)));
  }

  lemma MoveKeepsWalk(cfg: Config, grace: nat, s: Split, m: Move, s': Split)
    requires WalkInv(s) && Moves(cfg, grace, s, m, s')
    ensures WalkInv(s')
  {
    if m.ReadPage? { ReadKeepsWalk(s.sys.store, s.sys.pass.value, m.limit, m.page); }
  }

  lemma {:induction false} WalkInvAt(cfg: Config, grace: nat, states: seq<Split>, moves: seq<Move>, i: nat)
    requires SplitRun(cfg, grace, states, moves) && i < |states|
    ensures WalkInv(states[i])
  {
    if i > 0 {
      WalkInvAt(cfg, grace, states, moves, i - 1);
      assert MovesAt(cfg, grace, states, moves, i - 1);
      MoveKeepsWalk(cfg, grace, states[i - 1], moves[i - 1], states[i]);
    }
  }

  predicate Turns(m: Move) { m.Whole? && (m.step.BeginPass? || m.step.EndPass? || m.step.Crash?) }

  /** The pass that runs at state `k` is the one that runs at state `i`. */
  ghost predicate GoesOn(moves: seq<Move>, k: nat, i: nat)
    requires i <= |moves|
  {
    forall x :: k <= x < i ==> !Turns(moves[x])
  }

  lemma {:induction false} SamePass(cfg: Config, grace: nat, states: seq<Split>, moves: seq<Move>, k: nat, i: nat)
    requires SplitRun(cfg, grace, states, moves) && k <= i < |states| && GoesOn(moves, k, i) && states[k].sys.pass.Some?
    ensures states[i].sys.pass.Some? && states[k].sys.pass.value.marked <= states[i].sys.pass.value.marked
    ensures states[i].sys.pass.value.now == states[k].sys.pass.value.now && states[i].sys.pass.value.cutoff == states[k].sys.pass.value.cutoff
    decreases i
  {
    if k < i {
      SamePass(cfg, grace, states, moves, k, i - 1);
      assert MovesAt(cfg, grace, states, moves, i - 1) && !Turns(moves[i - 1]);
    }
  }

  lemma {:induction false} PassBegan(cfg: Config, grace: nat, states: seq<Split>, moves: seq<Move>, i: nat) returns (b: nat)
    requires SplitRun(cfg, grace, states, moves) && i < |states| && states[i].sys.pass.Some?
    ensures b < i && moves[b].Whole? && moves[b].step.BeginPass? && GoesOn(moves, b + 1, i)
  {
    assert MovesAt(cfg, grace, states, moves, i - 1);
    if Turns(moves[i - 1]) {
      b := i - 1;
    } else {
      b := PassBegan(cfg, grace, states, moves, i - 1);
    }
  }

  /** The mark a blob is collected on landed before the collecting pass began. */
  lemma MarkedBeforeThePass(cfg: Config, grace: nat, states: seq<Split>, moves: seq<Move>, i: nat, d: Digest) returns (j: nat, b: nat)
    requires SplitRun(cfg, grace, states, moves) && i < |moves| && Reclaims(states[i], moves[i], d)
    ensures var quiet := Undisturbed(cfg, states, moves, d, j, i); quiet
    ensures j < b < i && moves[b].Whole? && moves[b].step.BeginPass? && GoesOn(moves, b + 1, i)
  {
    j := QuietSurvivesTheGap(cfg, grace, states, moves, i, d);
    b := PassBegan(cfg, grace, states, moves, i);
    WalkInvAt(cfg, grace, states, moves, j);
    WalkInvAt(cfg, grace, states, moves, i);
    assert MovesAt(cfg, grace, states, moves, i);
    assert d !in states[i].sys.pass.value.marked && b != j;
    if b < j {
      SamePass(cfg, grace, states, moves, j, i);
      assert false;
    }
  }

  // --- memberships ------------------------------------------------------

  ghost predicate OldMember(s: Split, r: RepoId, d: Digest, cutoff: nat) {
    P(r, d) in s.sys.store && s.sys.store[P(r, d)].MemberV? && s.sys.store[P(r, d)].addedAt <= cutoff
  }

  ghost predicate WipedSince(states: seq<Split>, moves: seq<Move>, r: RepoId, k: nat, i: nat)
    requires |states| == |moves| + 1 && i < |states|
  {
    exists x :: k <= x < i && moves[x].Whole? && Wipes(states[x].sys, moves[x].step, r)
  }

  /** While a mark stands, a membership changes only by the wipe of its own repository. */
  lemma {:induction false} HeldSince(states: seq<Split>, moves: seq<Move>, d: Digest, k: nat, i: nat, r: RepoId)
    requires |states| == |moves| + 1 && k <= i < |states| && forall x :: k <= x < i ==> SteadyMove(states, moves, d, x)
    ensures P(r, d) in states[i].sys.store <==> P(r, d) in states[k].sys.store && !WipedSince(states, moves, r, k, i)
    ensures P(r, d) in states[i].sys.store ==> states[i].sys.store[P(r, d)] == states[k].sys.store[P(r, d)]
    decreases i
  {
    if k < i {
      HeldSince(states, moves, d, k, i - 1, r);
      assert SteadyMove(states, moves, d, i - 1);
      WipedOnceMore(states, moves, r, k, i);
    }
  }

  lemma WipedOnceMore(states: seq<Split>, moves: seq<Move>, r: RepoId, k: nat, i: nat)
    requires |states| == |moves| + 1 && k < i < |states|
    ensures WipedSince(states, moves, r, k, i) <==>
      WipedSince(states, moves, r, k, i - 1) || (moves[i - 1].Whole? && Wipes(states[i - 1].sys, moves[i - 1].step, r))
  {}

  /** The membership walk of the running pass has met this membership at move `k`. */
  ghost predicate Met(s: Split, m: Move, k: Key) {
    m.Whole? && m.step.MemberPage? && k in m.step.page.keys && k in s.sys.store
  }

  /** The walk comes to every membership that is there for the whole of it. */
  lemma {:induction false} WalkMeets(cfg: Config, grace: nat, states: seq<Split>, moves: seq<Move>, b: nat, i: nat, key: Key) returns (k: nat)
    requires SplitRun(cfg, grace, states, moves) && b < i < |states| && moves[b].Whole? && moves[b].step.BeginPass? && GoesOn(moves, b + 1, i)
    requires states[i].sys.pass.Some? && Passed(Before, states[i].sys.pass.value.members, key) && InRange(key, Members)
    requires forall x :: b < x <= i ==> key in states[x].sys.store
    ensures b < k < i && (var met := Met(states[k], moves[k], key); met)
    decreases i
  {
    assert MovesAt(cfg, grace, states, moves, i - 1);
    if i == b + 1 {
      assert false;
    } else {
      assert !Turns(moves[i - 1]) && states[i - 1].sys.pass.Some?;
      if Passed(Before, states[i - 1].sys.pass.value.members, key) {
        k := WalkMeets(cfg, grace, states, moves, b, i - 1, key);
      } else {
        k := i - 1;
        PageMeets(cfg, grace, states[k], moves[k], states[i], key);
      }
    }
  }

  lemma PageMeets(cfg: Config, grace: nat, s: Split, m: Move, s': Split, key: Key)
    requires Moves(cfg, grace, s, m, s') && !Turns(m) && s.sys.pass.Some? && s'.sys.pass.Some?
    requires !Passed(Before, s.sys.pass.value.members, key) && Passed(Before, s'.sys.pass.value.members, key)
    requires InRange(key, Members) && key in s.sys.store
    ensures Met(s, m, key)
  {
    assert m.Whole? && m.step.MemberPage?;
    KeysAreOrdered();
    PageCovers(Before, Pool(s.sys.store, Members), s.sys.pass.value.members, m.step.limit, m.step.page, key);
  }

  /** The walk met an old membership of a marked blob and left it, for a reference of its own repository. */
  ghost predicate Spares(s: Split, m: Move, r: RepoId, d: Digest, cutoff: nat) {
    Met(s, m, P(r, d)) && OldMember(s, r, d, cutoff) && ReferencedIn(s.sys.store, d, r) && C(d) in s.sys.store
  }

  ghost predicate SparedByItsPass(states: seq<Split>, moves: seq<Move>, r: RepoId, d: Digest, cutoff: nat, i: nat)
    requires |states| == |moves| + 1 && i < |states|
  {
    exists k :: 0 <= k < i && GoesOn(moves, k, i) && Spares(states[k], moves[k], r, d, cutoff) && !WipedSince(states, moves, r, k, i)
  }

  lemma StaleIsRetracted(s: Data, page: Page<Key>, r: RepoId, d: Digest, cutoff: nat)
    requires P(r, d) in page.keys
    ensures Stale(s, P(r, d), cutoff) ==> Retracts(s, page, cutoff, d)
  {
    assert P(r, d).digest == d;
  }

  /** An old membership that its page leaves, with the mark still standing, is one the page spared. */
  lemma LeftMeansSpared(cfg: Config, grace: nat, s: Split, m: Move, s': Split, r: RepoId, d: Digest, cutoff: nat)
    requires Moves(cfg, grace, s, m, s') && Met(s, m, P(r, d)) && OldMember(s, r, d, cutoff)
    requires s.sys.pass.Some? && s.sys.pass.value.cutoff == cutoff && C(d) in s.sys.store && C(d) in s'.sys.store
    ensures Spares(s, m, r, d, cutoff)
  {
    StaleIsRetracted(s.sys.store, m.step.page, r, d, cutoff);
    RetractedIsUnmarked(s.sys.store, m.step.page, cutoff, d);
  }

  lemma SurvivorWasSpared(cfg: Config, grace: nat, states: seq<Split>, moves: seq<Move>, i: nat, j: nat, b: nat, r: RepoId, d: Digest)
    requires SplitRun(cfg, grace, states, moves) && i < |moves| && Reclaims(states[i], moves[i], d)
    requires Undisturbed(cfg, states, moves, d, j, i) && j < b < i && moves[b].Whole? && moves[b].step.BeginPass? && GoesOn(moves, b + 1, i)
    requires OldMember(states[i], r, d, states[i].sys.pass.value.cutoff)
    ensures var spared := SparedByItsPass(states, moves, r, d, states[i].sys.pass.value.cutoff, i); spared
  {
    var cutoff := states[i].sys.pass.value.cutoff;
    forall x | j <= x <= i ensures P(r, d) in states[x].sys.store && states[x].sys.store[P(r, d)] == states[i].sys.store[P(r, d)] {
      HeldSince(states, moves, d, x, i, r);
    }
    WalkInvAt(cfg, grace, states, moves, i);
    assert MovesAt(cfg, grace, states, moves, i);
    var k := WalkMeets(cfg, grace, states, moves, b, i, P(r, d));
    assert MovesAt(cfg, grace, states, moves, k);
    SamePass(cfg, grace, states, moves, k, i);
    assert MarkedAt(states[k].sys, d, Secs(states[j].sys.pass.value.now)) && MarkedAt(states[k + 1].sys, d, Secs(states[j].sys.pass.value.now));
    LeftMeansSpared(cfg, grace, states[k], moves[k], states[k + 1], r, d, cutoff);
    HeldSince(states, moves, d, k, i, r);
    assert GoesOn(moves, k, i);
  }

  lemma SparedSurvives(cfg: Config, grace: nat, states: seq<Split>, moves: seq<Move>, i: nat, j: nat, b: nat, r: RepoId, d: Digest)
    requires SplitRun(cfg, grace, states, moves) && i < |moves| && Reclaims(states[i], moves[i], d)
    requires Undisturbed(cfg, states, moves, d, j, i) && j < b < i && moves[b].Whole? && moves[b].step.BeginPass?
    requires var spared := SparedByItsPass(states, moves, r, d, states[i].sys.pass.value.cutoff, i); spared
    ensures OldMember(states[i], r, d, states[i].sys.pass.value.cutoff)
  {
    var cutoff := states[i].sys.pass.value.cutoff;
    var k :| 0 <= k < i && GoesOn(moves, k, i) && Spares(states[k], moves[k], r, d, cutoff) && !WipedSince(states, moves, r, k, i);
    assert b < k by { if k <= b { assert Turns(moves[b]); } }
    HeldSince(states, moves, d, k, i, r);
  }

  /**
   Exactly which old holders a collection takes a blob from: those whose membership the same pass's
   walk had met and spared, for a reference, with the mark already standing - and that were not
   wiped since. When a page is one step there are none.
   */
  lemma OldHolderLosesIff(cfg: Config, grace: nat, states: seq<Split>, moves: seq<Move>, i: nat, r: RepoId, d: Digest)
    requires SplitRun(cfg, grace, states, moves) && i < |moves| && Reclaims(states[i], moves[i], d)
    ensures var cutoff := states[i].sys.pass.value.cutoff;
      OldMember(states[i], r, d, cutoff) <==> SparedByItsPass(states, moves, r, d, cutoff, i)
  {
    var j, b := MarkedBeforeThePass(cfg, grace, states, moves, i, d);
    if OldMember(states[i], r, d, states[i].sys.pass.value.cutoff) { SurvivorWasSpared(cfg, grace, states, moves, i, j, b, r, d); }
    if SparedByItsPass(states, moves, r, d, states[i].sys.pass.value.cutoff, i) { SparedSurvives(cfg, grace, states, moves, i, j, b, r, d); }
  }

  // --- where nothing races ----------------------------------------------

  /** The membership range holds membership records, race or no race. */
  ghost predicate Typed(s: Data) {
    forall r: RepoId, d: Digest :: P(r, d) in s ==> s[P(r, d)].MemberV?
  }

  lemma EffectTypes(s: Data, e: Effect)
    requires Typed(s) && forall k :: k in e.puts && k.P? ==> e.puts[k].MemberV?
    ensures Typed(Perform(s, e))
  {
    forall r: RepoId, d: Digest | P(r, d) in Perform(s, e) ensures Perform(s, e)[P(r, d)].MemberV? { PerformAt(s, e, P(r, d)); }
  }

  lemma AloneTypes(s: Data, s': Data)
    requires Typed(s) && forall d: Digest :: BlobAlone(s, s', d)
    ensures Typed(s')
  {
    forall r: RepoId, d: Digest | P(r, d) in s' ensures s'[P(r, d)].MemberV? { assert BlobAlone(s, s', d) && SameKey(s, s', P(r, d)); }
  }

  lemma PushTypes(cfg: Config, s: Data, s': Data, r: RepoId, d: Digest, tags: set<Tag>, now: Millis)
    requires Typed(s) && Pushed(cfg, s, s', r, d, tags, now)
    ensures Typed(s')
  {}

  lemma IndexPlanTypes(cfg: Config, s: Data, r: RepoId, req: Request)
    requires Typed(s) && IndexCall(req) && Plan(cfg, s, r, req).Some?
    ensures var typed := Typed(Perform(s, Plan(cfg, s, r, req).value)); typed
  {
    forall d: Digest ensures BlobAlone(s, Perform(s, Plan(cfg, s, r, req).value), d) {
      if req.Retag? { RetagLeavesBlobs(cfg, s, r, req.tag, req.digest, req.now, d); }
      else if req.Untag? { UntagLeavesBlobs(cfg, s, r, req.tag, req.now, d); }
      else { DeleteManifestLeavesBlobs(cfg, s, r, req.digest, req.now, d); }
    }
    AloneTypes(s, Perform(s, Plan(cfg, s, r, req).value));
  }

  lemma PlanTypes(cfg: Config, s: Data, r: RepoId, req: Request)
    requires Typed(s) && Plan(cfg, s, r, req).Some?
    ensures var typed := Typed(Perform(s, Plan(cfg, s, r, req).value)); typed
  {
    if req.PutManifest? {
      PushPlanIsPushed(cfg, s, r, req);
      PushTypes(cfg, s, Perform(s, Plan(cfg, s, r, req).value), r, req.digest, Elements(req.tags), req.now);
    } else if IndexCall(req) {
      IndexPlanTypes(cfg, s, r, req);
    } else {
      OtherPlanTypes(cfg, s, r, req);
    }
  }

  lemma OtherPlanTypes(cfg: Config, s: Data, r: RepoId, req: Request)
    requires Typed(s) && Plan(cfg, s, r, req).Some? && (BlobCall(req) || Elsewhere(req))
    ensures var typed := Typed(Perform(s, Plan(cfg, s, r, req).value)); typed
  {
    EffectTypes(s, Plan(cfg, s, r, req).value);
  }

  lemma ServeTypes(cfg: Config, s: Data, req: Request)
    requires Typed(s)
    ensures Typed(Serve(cfg, s, req))
  {
    var s1 := Arrive(s, req).0;
    forall r: RepoId, d: Digest ensures SameKey(s, s1, P(r, d)) {}
    assert Typed(s1);
    if Batch(cfg, s, req).Some? { PlanTypes(cfg, s1, Arrive(s, req).1.value, req); }
  }

  lemma UpkeepTypes(cfg: Config, grace: nat, s: Sys, step: Step, s': Sys)
    requires Next(cfg, grace, s, step, s') && !step.Call? && Typed(s.store)
    ensures Typed(s'.store)
  {
    match step {
      case MemberPage(_, page) => EffectTypes(s.store, SweepMembers(s.store, Elements(page.keys), s.pass.value.cutoff));
      case BlobPage(_, page) => EffectTypes(s.store, ScanBlobs(s.store, BlobsOf(page.keys), s.pass.value.now));
      case Collect(d) =>
        if CollectBlob(s.store, d, s.pass.value.cutoff).Some? { EffectTypes(s.store, CollectBlob(s.store, d, s.pass.value.cutoff).value); }
      case SweepPage(_, page) => EffectTypes(s.store, SweepRefs(s.store, s.sweep.value.id, ManifestsOf(page.keys)));
      case _ =>
    }
  }

  lemma {:induction false} TypedAt(cfg: Config, grace: nat, states: seq<Split>, moves: seq<Move>, i: nat)
    requires SplitRun(cfg, grace, states, moves) && i < |states|
    ensures Typed(states[i].sys.store)
  {
    if i > 0 {
      TypedAt(cfg, grace, states, moves, i - 1);
      SplitInvAt(cfg, grace, states, moves, i - 1);
      assert MovesAt(cfg, grace, states, moves, i - 1);
      MoveTypes(cfg, grace, states[i - 1], moves[i - 1], states[i]);
    }
  }

  lemma MoveTypes(cfg: Config, grace: nat, s: Split, m: Move, s': Split)
    requires SplitInv(grace, s) && Moves(cfg, grace, s, m, s') && Typed(s.sys.store)
    ensures Typed(s'.sys.store)
  {
    if m.Whole? && m.step.Call? { ServeTypes(cfg, s.sys.store, m.step.req); }
    else if m.Whole? { UpkeepTypes(cfg, grace, s.sys, m.step, s'.sys); }
    else if m.ApplyPage? { EffectTypes(s.sys.store, s.pending.value); }
  }

  /**
   A blob that no push links while its mark is pending has what one-step marking gives: never both
   a mark and a reference, and when it is collected every membership that survives is stamped
   later than the cutoff - whatever races on other blobs.
   */
  lemma UnracedBlobIsSafe(cfg: Config, grace: nat, states: seq<Split>, moves: seq<Move>, i: nat, d: Digest)
    requires SplitRun(cfg, grace, states, moves) && i < |states|
    requires var raced := RacedWithin(cfg, states, moves, d, 0, i); !raced
    ensures C(d) in states[i].sys.store ==> !Referenced(states[i].sys.store, d)
    ensures i < |moves| && Reclaims(states[i], moves[i], d) ==>
      !Referenced(states[i].sys.store, d) &&
      forall r: RepoId :: P(r, d) in states[i].sys.store ==>
        states[i].sys.store[P(r, d)].MemberV? && states[i].sys.store[P(r, d)].addedAt > states[i].sys.pass.value.cutoff
  {
    UnracedMark(cfg, grace, states, moves, i, d);
    if i < |moves| && Reclaims(states[i], moves[i], d) {
      TypedAt(cfg, grace, states, moves, i);
      forall r: RepoId | P(r, d) in states[i].sys.store ensures states[i].sys.store[P(r, d)].addedAt > states[i].sys.pass.value.cutoff {
        UnracedHolder(cfg, grace, states, moves, i, r, d);
      }
    }
  }

  lemma UnracedMark(cfg: Config, grace: nat, states: seq<Split>, moves: seq<Move>, i: nat, d: Digest)
    requires SplitRun(cfg, grace, states, moves) && i < |states|
    requires var raced := RacedWithin(cfg, states, moves, d, 0, i); !raced
    ensures C(d) in states[i].sys.store ==> !Referenced(states[i].sys.store, d)
  {
    if C(d) in states[i].sys.store && Referenced(states[i].sys.store, d) {
      var k, j := MarkMeetsReference(cfg, grace, states, moves, i, d);
      RacedWider(cfg, states, moves, d, k, j, i);
    }
  }

  lemma UnracedHolder(cfg: Config, grace: nat, states: seq<Split>, moves: seq<Move>, i: nat, r: RepoId, d: Digest)
    requires SplitRun(cfg, grace, states, moves) && i < |moves| && Reclaims(states[i], moves[i], d)
    requires var raced := RacedWithin(cfg, states, moves, d, 0, i); !raced
    ensures !OldMember(states[i], r, d, states[i].sys.pass.value.cutoff)
  {
    var cutoff := states[i].sys.pass.value.cutoff;
    OldHolderLosesIff(cfg, grace, states, moves, i, r, d);
    if SparedByItsPass(states, moves, r, d, cutoff, i) {
      var k :| 0 <= k < i && GoesOn(moves, k, i) && Spares(states[k], moves[k], r, d, cutoff) && !WipedSince(states, moves, r, k, i);
      ReferencedSomewhere(states[k].sys.store, d, r);
      assert !RacedWithin(cfg, states, moves, d, 0, k);
      UnracedMark(cfg, grace, states, moves, k, d);
      assert false;
    }
  }

  // --- the whole invariant ----------------------------------------------

  /** All of `SysInv`, and no pending mark of a referenced blob. */
  ghost predicate GapInv(cfg: Config, grace: nat, s: Split) {
    && SysInv(cfg, s.sys) && SplitInv(grace, s) && WalkInv(s)
    && (s.pending.Some? ==> forall d: Digest :: C(d) in s.pending.value.puts ==> !Referenced(s.sys.store, d))
  }

  ghost predicate Unraced(cfg: Config, s: Split, m: Move) { forall d: Digest :: !Races(cfg, s, m, d) }

  lemma ReadKeepsPass(s: Data, p: Pass, limit: nat, page: Page<Key>)
    requires PassInv(s, p) && p.members.Done? && p.blobs.At? && IsPage(Before, Pool(s, Blobs), p.blobs.cursor, limit, page)
    ensures PassInv(s, p.(blobs := Resume(page), ripe := p.ripe + RipeIn(s, BlobsOf(page.keys), p.cutoff),
                          marked := p.marked + MarkedBy(s, BlobsOf(page.keys))))
  {
    ReadKeepsWalk(s, p, limit, page);
  }

  lemma LandingKeepsInv(cfg: Config, s: Data, e: Effect, at: nat)
    requires Inv(cfg, s) && MarksOnly(e, at) && forall d: Digest :: C(d) in e.puts ==> !Referenced(s, d)
    ensures var sound := Inv(cfg, Perform(s, e)); sound
  {
    forall k: Key | !k.C? ensures SameKey(s, Perform(s, e), k) { PerformAt(s, e, k); }
    forall d: Digest | C(d) in Perform(s, e) ensures Perform(s, e)[C(d)].MarkV? && (C(d) in s || !Referenced(s, d)) { PerformAt(s, e, C(d)); }
    MarkingIsQuiet(cfg, s, Perform(s, e));
    QuietKeepsInv(cfg, s, Perform(s, e));
  }

  lemma LandingKeepsPass(s: Data, p: Pass, e: Effect, at: nat)
    requires PassInv(s, p) && MarksOnly(e, at) && forall d: Digest :: C(d) in e.puts ==> d in p.marked
    ensures var kept := PassInv(Perform(s, e), p); kept
  {
    var s' := Perform(s, e);
    forall r: RepoId, d: Digest ensures SameKey(s, s', P(r, d)) { PerformAt(s, e, P(r, d)); }
    forall d: Digest | C(d) in s' ensures C(d) in s || d in p.marked { PerformAt(s, e, C(d)); }
  }

  lemma LandingKeepsSys(cfg: Config, s: Sys, e: Effect, at: nat)
    requires SysInv(cfg, s) && MarksOnly(e, at) && s.pass.Some?
    requires forall d: Digest :: C(d) in e.puts ==> !Referenced(s.store, d) && d in s.pass.value.marked
    ensures var kept := SysInv(cfg, s.(store := Perform(s.store, e))); kept
  {
    LandingKeepsInv(cfg, s.store, e, at);
    LandingKeepsPass(s.store, s.pass.value, e, at);
    if s.sweep.Some? { PurgeKeepsSweep(s.store, e, s.sweep.value); }
  }

  /** What is pending stays unreferenced unless a push races it. */
  lemma PendingStaysClear(cfg: Config, grace: nat, s: Split, m: Move, s': Split, d: Digest)
    requires SplitInv(grace, s) && Moves(cfg, grace, s, m, s') && (var unraced := Unraced(cfg, s, m); unraced)
    requires s.pending.Some? && C(d) in s.pending.value.puts && !Referenced(s.sys.store, d)
    ensures !Referenced(s'.sys.store, d)
  {
    assert !Races(cfg, s, m, d);
    if Referenced(s'.sys.store, d) { ReferencingRaces(cfg, grace, s, m, s', d); }
  }

  lemma MoveKeepsSys(cfg: Config, grace: nat, s: Split, m: Move, s': Split)
    requires GapInv(cfg, grace, s) && Moves(cfg, grace, s, m, s')
    ensures var kept := SysInv(cfg, s'.sys); kept
  {
    match m {
      case Whole(step) => StepKeepsInv(cfg, grace, s.sys, step, s'.sys);
      case ReadPage(limit, page) => ReadKeepsPass(s.sys.store, s.sys.pass.value, limit, page);
      case ApplyPage => LandingKeepsSys(cfg, s.sys, s.pending.value, Secs(s.sys.pass.value.now));
    }
  }

  lemma MoveKeepsGap(cfg: Config, grace: nat, s: Split, m: Move, s': Split)
    requires GapInv(cfg, grace, s) && Moves(cfg, grace, s, m, s') && (var unraced := Unraced(cfg, s, m); unraced)
    ensures var kept := GapInv(cfg, grace, s'); kept
  {
    MoveKeepsSys(cfg, grace, s, m, s');
    MoveKeepsInv(cfg, grace, s, m, s');
    MoveKeepsWalk(cfg, grace, s, m, s');
    if s'.pending.Some? {
      forall d: Digest | C(d) in s'.pending.value.puts ensures !Referenced(s'.sys.store, d) {
        if s.pending.Some? { PendingStaysClear(cfg, grace, s, m, s', d); }
      }
    }
  }

  /** Where no push ever races a pending mark, every invariant of the one-step machine holds in every state. */
  lemma {:induction false} InvariantsSurviveTheGap(cfg: Config, grace: nat, states: seq<Split>, moves: seq<Move>, i: nat)
    requires SplitRun(cfg, grace, states, moves) && i < |states|
    requires forall x :: 0 <= x < i ==> Unraced(cfg, states[x], moves[x])
    ensures var sound := GapInv(cfg, grace, states[i]); sound
  {
    if i == 0 {
      EmptyStoreIsSound(cfg);
    } else {
      InvariantsSurviveTheGap(cfg, grace, states, moves, i - 1);
      assert MovesAt(cfg, grace, states, moves, i - 1);
      assert Unraced(cfg, states[i - 1], moves[i - 1]);
      MoveKeepsGap(cfg, grace, states[i - 1], moves[i - 1], states[i]);
    }
  }
}
