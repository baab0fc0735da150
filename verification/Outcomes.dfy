/**
 What a caller is owed when a call succeeds, and what it must not have changed: the point of each
 operation, stated without the batch that achieves it.
 */
module Outcomes {
  import opened Results
  import opened Paging
  import opened Keys
  import opened Store
  import opened Interner
  import opened Registry
  import opened Invariants
  import opened IndexSteps
  import opened Retractions
  import opened Requests

  // --- blobs ------------------------------------------------------------

  /**
   A committed or mounted blob is served by its repository at the size recorded, and a membership
   that was already there keeps its grace clock.
   */
  lemma CommitServes(s: Data, r: RepoId, d: Digest, size: nat, now: Millis)
    ensures var s' := Perform(s, CommitBlob(s, r, d, size, now));
      && Present(s', r, d) && SizeOf(s', d) == size
      && (P(r, d) in s ==> s'[P(r, d)] == s[P(r, d)])
      && (P(r, d) !in s ==> s'[P(r, d)] == MemberV(size, Secs(now)))
      && (forall x: RepoId, b: Digest :: x != r || b != d ==> SameKey(s, s', P(x, b)))
      && (forall b: Digest :: b != d ==> SameKey(s, s', B(b)) && SameKey(s, s', C(b)))
  {}

  /** A mount out of a repository that could not serve the blob changes nothing at all. */
  lemma UnentitledMountIsRefused(cfg: Config, s: Data, repo: Name, from: Name, d: Digest, now: Millis)
    requires IdOf(s, from).None? || !Servable(s, IdOf(s, from).value, d)
    ensures Serve(cfg, s, Mount(repo, Some(from), d, now)) == s
  {}

  /** A deleted blob is at once not served here, and served elsewhere exactly as before. */
  lemma DeletedBlobIsNotServed(s: Data, r: RepoId, b: Digest)
    requires DeleteBlob(s, r, b).Ok?
    ensures var s' := Perform(s, DeleteBlob(s, r, b).value);
      && !Servable(s', r, b)
      && (forall x: RepoId :: x != r ==> (Servable(s', x, b) <==> Servable(s, x, b)))
      && (forall x: RepoId, c: Digest :: c != b ==> (Servable(s', x, c) <==> Servable(s, x, c)))
  {
    var s' := Perform(s, DeleteBlob(s, r, b).value);
    forall x: RepoId, c: Digest | x != r || c != b ensures Servable(s', x, c) <==> Servable(s, x, c) {
      ServableAlike(s, s', x, c);
    }
  }

  lemma ServableAlike(s: Data, s': Data, x: RepoId, c: Digest)
    requires SameKey(s, s', P(x, c)) && forall k: Key :: k.R? && k.repo == x && k.blob == c ==> SameKey(s, s', k)
    ensures Servable(s', x, c) <==> Servable(s, x, c)
  {
    if ReferencedIn(s, c, x) { var k :| k in s && InRange(k, RefsIn(c, x)); assert SameKey(s, s', k); }
    if ReferencedIn(s', c, x) { var k :| k in s' && InRange(k, RefsIn(c, x)); assert SameKey(s, s', k); }
  }

  // --- manifests --------------------------------------------------------

  /**
   A pushed manifest is stored with its body under every tag it was pushed with; every layer it
   names is referenced and served, unless foreign and absent; memberships keep their clocks; no
   other tag of the repository moves.
   */
  lemma PushedManifestIsServed(cfg: Config, s: Data, r: RepoId, d: Digest, claimed: Option<Digest>, tags: seq<Tag>, now: Millis)
    requires PushRefusal(cfg, s, r, d, claimed, tags).None?
    ensures var s' := Perform(s, PushEffect(cfg, s, r, d, Elements(tags), now));
      && M(r, d) in s' && Z(r, d) in s' && s'[M(r, d)] == RecordOf(cfg, d, now)
      && (forall t: Tag :: TagAt(s', r, t) == if t in tags then Some(d) else TagAt(s, r, t))
      && (forall i :: 0 <= i < |cfg.doc(d).blobs| && (!cfg.doc(d).blobs[i].foreign || Present(s, r, cfg.doc(d).blobs[i].digest)) ==>
            Present(s', r, cfg.doc(d).blobs[i].digest) && R(cfg.doc(d).blobs[i].digest, r, d) in s')
      && (forall x: RepoId, b: Digest :: P(x, b) in s ==> SameKey(s, s', P(x, b)))
  {
    PushIsPushed(cfg, s, r, d, Elements(tags), now);
    PushedIsServed(cfg, s, Perform(s, PushEffect(cfg, s, r, d, Elements(tags), now)), r, d, claimed, tags, now);
  }

  lemma PushedIsServed(cfg: Config, s: Data, s': Data, r: RepoId, d: Digest, claimed: Option<Digest>, tags: seq<Tag>, now: Millis)
    requires PushRefusal(cfg, s, r, d, claimed, tags).None? && Pushed(cfg, s, s', r, d, Elements(tags), now)
    ensures M(r, d) in s' && Z(r, d) in s' && s'[M(r, d)] == RecordOf(cfg, d, now)
    ensures forall t: Tag :: TagAt(s', r, t) == if t in tags then Some(d) else TagAt(s, r, t)
    ensures forall i :: 0 <= i < |cfg.doc(d).blobs| && (!cfg.doc(d).blobs[i].foreign || Present(s, r, cfg.doc(d).blobs[i].digest)) ==>
      Present(s', r, cfg.doc(d).blobs[i].digest) && R(cfg.doc(d).blobs[i].digest, r, d) in s'
    ensures forall x: RepoId, b: Digest :: P(x, b) in s ==> SameKey(s, s', P(x, b))
  {
    forall t: Tag ensures TagAt(s', r, t) == if t in tags then Some(d) else TagAt(s, r, t) {
      assert t in Elements(tags) || SameKey(s, s', T(r, t));
    }
    var blobs := cfg.doc(d).blobs;
    forall i | 0 <= i < |blobs| && (!blobs[i].foreign || Present(s, r, blobs[i].digest))
      ensures Present(s', r, blobs[i].digest) && R(blobs[i].digest, r, d) in s'
    {
      var b := blobs[i].digest;
      NoneMissing(s, r, blobs, i);
      assert b in LinkedBlobs(s, r, blobs) && SameKey(s, s', B(b));
      assert R(b, r, d) in s' && InRange(R(b, r, d), RefsIn(b, r));
    }
  }

  /** A push that is not refused has every layer that is not foreign. */
  lemma {:induction false} NoneMissing(s: Data, r: RepoId, blobs: seq<Descriptor>, i: nat)
    requires FirstMissingBlob(s, r, blobs).None? && i < |blobs|
    ensures blobs[i].foreign || Present(s, r, blobs[i].digest)
  {
    if i > 0 { NoneMissing(s, r, blobs[1..], i - 1); }
  }

  /** After a manifest delete nothing in any range still makes it look stored, tagged or referenced. */
  lemma DeletedManifestIsForgotten(cfg: Config, s: Data, r: RepoId, d: Digest, now: Millis)
    requires Inv(cfg, s) && DeleteManifest(cfg, s, r, d, now).Ok?
    ensures var s' := Perform(s, DeleteManifest(cfg, s, r, d, now).value);
      && M(r, d) !in s' && Z(r, d) !in s'
      && (forall t: Tag :: TagAt(s', r, t) == if TagAt(s, r, t) == Some(d) then None else TagAt(s, r, t))
      && (forall t: Tag :: G(r, d, t) !in s')
      && (forall b: Digest :: R(b, r, d) !in s')
      && (forall x: Digest :: S(r, x, d) !in s' && S(r, d, x) !in s' && F(r, x, d) !in s')
  {
    var e := DeleteManifest(cfg, s, r, d, now).value;
    var s' := Perform(s, e);
    var tags := TagsPointingAt(s, r, d);
    forall k: Key ensures DropEntry(cfg, s, s', r, d, tags, now, true, k) { DeleteManifestTouches(cfg, s, r, d, tags, now, k); }
    forall t: Tag ensures t in tags <==> TagAt(s, r, t) == Some(d) { TagsPointing(s, r, d, t); }
    DroppedTagIndex(cfg, s, s', r, d, tags, now, true);
    DroppedEdges(cfg, s, s', r, d, tags, now, true);
    assert DropEntry(cfg, s, s', r, d, tags, now, true, M(r, d)) && DropEntry(cfg, s, s', r, d, tags, now, true, Z(r, d));
  }

  // --- isolation --------------------------------------------------------

  /** Nothing that mentions any other repository's id has changed. */
  ghost predicate OthersAlike(s: Data, s': Data, r: RepoId) {
    forall k: Key, x: RepoId :: x != r && Mentions(k, x) ==> SameKey(s, s', k)
  }

  /** The effect writes and deletes only keys of one repository, and shared or unowned keys. */
  ghost predicate Local(e: Effect, r: RepoId) {
    forall k: Key, x: RepoId :: Mentions(k, x) && (k in e.dels || k in e.puts) ==> x == r
  }

  lemma LocalIsIsolated(s: Data, e: Effect, r: RepoId)
    requires var local := Local(e, r); local
    ensures var alike := OthersAlike(s, Perform(s, e), r); alike
  {
    forall k: Key, x: RepoId | x != r && Mentions(k, x) ensures SameKey(s, Perform(s, e), k) { PerformAt(s, e, k); }
  }

  lemma PushPlanIsIsolated(cfg: Config, s: Data, r: RepoId, req: Request)
    requires req.PutManifest? && Plan(cfg, s, r, req).Some?
    ensures var alike := OthersAlike(s, Perform(s, Plan(cfg, s, r, req).value), r); alike
  {
    PushPlanIsPushed(cfg, s, r, req);
    PushedIsIsolated(cfg, s, Perform(s, Plan(cfg, s, r, req).value), r, req.digest, Elements(req.tags), req.now);
  }

  lemma PushedIsIsolated(cfg: Config, s: Data, s': Data, r: RepoId, d: Digest, tags: set<Tag>, now: Millis)
    requires var pushed := Pushed(cfg, s, s', r, d, tags, now); pushed
    ensures var alike := OthersAlike(s, s', r); alike
  {}

  lemma DeleteIsLocal(cfg: Config, s: Data, r: RepoId, d: Digest, now: Millis)
    ensures var e := DeleteManifest(cfg, s, r, d, now); e.Ok? ==> Local(e.value, r)
  {
    var e := DeleteManifest(cfg, s, r, d, now);
    if e.Ok? {
      var tags := TagsPointingAt(s, r, d);
      forall k: Key, x: RepoId | Mentions(k, x) && (k in e.value.dels || k in e.value.puts) ensures x == r {
        DeleteManifestDelsAt(cfg, s, r, d, s[M(r, d)], tags, k);
        TagEventsAt(r, tags, d, now, Deleted, k);
        TagDropsAt(cfg, r, tags, d, k);
      }
    }
  }

  lemma TagPlansAreLocal(cfg: Config, s: Data, r: RepoId, req: Request)
    requires (req.Retag? || req.Untag?) && Plan(cfg, s, r, req).Some?
    ensures Local(Plan(cfg, s, r, req).value, r)
  {}

  lemma BlobPlansAreLocal(cfg: Config, s: Data, r: RepoId, req: Request)
    requires (req.Commit? || req.Mount? || req.RemoveBlob?) && Plan(cfg, s, r, req).Some?
    ensures Local(Plan(cfg, s, r, req).value, r)
  {}

  lemma OtherPlanKeys(cfg: Config, s: Data, r: RepoId, req: Request, k: Key)
    requires Elsewhere(req) && Plan(cfg, s, r, req).Some?
    requires k in Plan(cfg, s, r, req).value.dels || k in Plan(cfg, s, r, req).value.puts
    ensures k.U? || k.N? || k.I? || k.Dead? || CounterOf(k, r)
  {}

  lemma OtherPlansAreLocal(cfg: Config, s: Data, r: RepoId, req: Request)
    requires Elsewhere(req) && Plan(cfg, s, r, req).Some?
    ensures var local := Local(Plan(cfg, s, r, req).value, r); local
  {
    var e := Plan(cfg, s, r, req).value;
    forall k | k in e.dels || k in e.puts ensures k.U? || k.N? || k.I? || k.Dead? || CounterOf(k, r) { OtherPlanKeys(cfg, s, r, req, k); }
    SharedOrOwnIsLocal(e, r);
  }

  lemma SharedOrOwnIsLocal(e: Effect, r: RepoId)
    requires forall k :: k in e.dels || k in e.puts ==> k.U? || k.N? || k.I? || k.Dead? || CounterOf(k, r)
    ensures var local := Local(e, r); local
  {}

  lemma PlanIsIsolated(cfg: Config, s: Data, r: RepoId, req: Request)
    requires Plan(cfg, s, r, req).Some?
    ensures var alike := OthersAlike(s, Perform(s, Plan(cfg, s, r, req).value), r); alike
  {
    if req.PutManifest? {
      PushPlanIsIsolated(cfg, s, r, req);
    } else {
      if req.Retag? || req.Untag? { TagPlansAreLocal(cfg, s, r, req); }
      else if req.RemoveManifest? || req.PurgeManifest? { DeleteIsLocal(cfg, s, r, req.digest, req.now); }
      else if req.Commit? || req.Mount? || req.RemoveBlob? { BlobPlansAreLocal(cfg, s, r, req); }
      else { OtherPlansAreLocal(cfg, s, r, req); }
      LocalIsIsolated(s, Plan(cfg, s, r, req).value, r);
    }
  }

  /**
   Isolation: whatever a call for one repository does, no tag, manifest, edge, membership, event
   or counter of any other repository changes.
   */
  lemma CallsAreIsolated(cfg: Config, s: Data, req: Request)
    ensures match Arrive(s, req).1
      case Some(r) => (var alike := OthersAlike(s, Serve(cfg, s, req), r); alike)
      case None => forall k: Key, x: RepoId :: Mentions(k, x) ==> SameKey(s, Serve(cfg, s, req), k)
  {
    ArrivalMentionsNobody(s, req);
    if Batch(cfg, s, req).Some? {
      PlanIsIsolated(cfg, Arrive(s, req).0, Arrive(s, req).1.value, req);
      IsolatedTwice(s, Arrive(s, req).0, Serve(cfg, s, req), Arrive(s, req).1.value);
    } else if Arrive(s, req).1.Some? {
      NothingElse(s, Arrive(s, req).0, Arrive(s, req).1.value);
    }
  }

  ghost predicate Unmoved(s: Data, s': Data) {
    forall k: Key, x: RepoId :: Mentions(k, x) ==> SameKey(s, s', k)
  }

  /** Interning a name writes nothing under any id. */
  lemma ArrivalMentionsNobody(s: Data, req: Request)
    ensures var unmoved := Unmoved(s, Arrive(s, req).0); unmoved
  {}

  lemma NothingElse(s: Data, s': Data, r: RepoId)
    requires var unmoved := Unmoved(s, s'); unmoved
    ensures var alike := OthersAlike(s, s', r); alike
  {}

  lemma IsolatedTwice(s: Data, s1: Data, s2: Data, r: RepoId)
    requires var unmoved := Unmoved(s, s1); unmoved
    requires var alike := OthersAlike(s1, s2, r); alike
    ensures var alike := OthersAlike(s, s2, r); alike
  {
    forall k: Key, x: RepoId | x != r && Mentions(k, x) ensures SameKey(s, s2, k) {
      assert SameKey(s, s1, k) && SameKey(s1, s2, k);
    }
  }
}
