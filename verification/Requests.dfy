/**
 What clients and maintenance calls do to the store, one atomic call at a time: intern the name
 where the call does, plan, and apply the batch if the plan succeeded.
 */
module Requests {
  import opened Results
  import opened Paging
  import opened Keys
  import opened Store
  import opened Interner
  import opened Registry
  import opened Invariants
  import opened IndexSteps
  import opened Retractions
  import opened Upkeep

  datatype Request =
    | Commit(repo: Name, digest: Digest, size: nat, closes: Option<UploadId>, now: Millis)
    | Mount(repo: Name, from: Option<Name>, digest: Digest, now: Millis)
    | PutManifest(repo: Name, digest: Digest, claimed: Option<Digest>, tags: seq<Tag>, now: Millis)
    | Retag(repo: Name, tag: Tag, digest: Digest, now: Millis)
    | Untag(repo: Name, tag: Tag, now: Millis)
    | RemoveManifest(repo: Name, digest: Digest, now: Millis)
    | PurgeManifest(repo: Name, digest: Digest, now: Millis, pushedBefore: nat)
    | RemoveBlob(repo: Name, digest: Digest)
    | OpenUpload(repo: Name, upload: UploadId, now: Millis)
    | SaveUpload(upload: UploadId, owner: RepoId, now: Millis)
    | EndUpload(upload: UploadId)
    | CountPulls(repo: Name, buckets: map<Key, Val>)
    | DropRepo(repo: Name)
    | RetireRepo(repo: Name, live: set<RepoId>, watermark: RepoId)

  predicate Interns(req: Request) {
    req.Commit? || req.Mount? || req.PutManifest? || req.OpenUpload?
  }

  /** Whether a mount's source is entitled to the blob it offers. */
  predicate Mountable(s: Data, from: Option<Name>, d: Digest) {
    && B(d) in s
    && (from.Some? ==> IdOf(s, from.value).Some? && Servable(s, IdOf(s, from.value).value, d))
  }

  predicate CounterOf(k: Key, r: RepoId) {
    (k.CountManifest? || k.CountTag? || k.CountRepo?) && k.repo == r
  }

  /** Calls that move tags and manifests, and calls that move blobs. */
  predicate IndexCall(req: Request) { req.Retag? || req.Untag? || req.RemoveManifest? || req.PurgeManifest? }

  predicate BlobCall(req: Request) { req.Commit? || req.Mount? || req.RemoveBlob? }

  /** The batch the call applies, planned against the store with the name already interned. */
  ghost function Plan(cfg: Config, s: Data, r: RepoId, req: Request): Option<Effect> {
    if req.PutManifest? then PlanPush(cfg, s, r, req.digest, req.claimed, req.tags, req.now)
    else if IndexCall(req) then PlanIndex(cfg, s, r, req)
    else if BlobCall(req) then PlanBlob(s, r, req)
    else PlanElsewhere(s, r, req)
  }

  ghost function PlanPush(cfg: Config, s: Data, r: RepoId, d: Digest, claimed: Option<Digest>, tags: seq<Tag>, now: Millis): Option<Effect> {
    if PushRefusal(cfg, s, r, d, claimed, tags).Some? then None else Some(PushEffect(cfg, s, r, d, Elements(tags), now))
  }

  ghost function PlanIndex(cfg: Config, s: Data, r: RepoId, req: Request): Option<Effect>
    requires IndexCall(req)
  {
    match req
    case Retag(_, t, d, now) => Landed(SetTag(cfg, s, r, t, d, now))
    case Untag(_, t, now) => Landed(DeleteTag(cfg, s, r, t, now))
    case RemoveManifest(_, d, now) => Landed(DeleteManifest(cfg, s, r, d, now))
    case PurgeManifest(_, d, now, pushedBefore) =>
      if Purgeable(s, r, d, pushedBefore) then Landed(DeleteManifest(cfg, s, r, d, now)) else None
  }

  function PlanBlob(s: Data, r: RepoId, req: Request): Option<Effect>
    requires BlobCall(req)
  {
    match req
    case Commit(_, d, size, closes, now) =>
      var e := CommitBlob(s, r, d, size, now);
      Some(match closes case Some(u) => e.(dels := e.dels + {U(u)}) case None => e)
    case Mount(_, _, d, now) => Some(CommitBlob(s, r, d, SizeOf(s, d), now))
    case RemoveBlob(_, b) => Landed(DeleteBlob(s, r, b))
  }

  function PlanElsewhere(s: Data, r: RepoId, req: Request): Option<Effect>
    requires Elsewhere(req)
  {
    match req
    case OpenUpload(_, u, now) => Some(Effect({}, map[U(u) := SessionV(r, Secs(now))]))
    case SaveUpload(u, owner, now) => Some(Effect({}, map[U(u) := SessionV(owner, Secs(now))]))
    case EndUpload(u) => Some(Effect({U(u)}, map[]))
    case CountPulls(_, buckets) => Some(Effect({}, buckets - (set k | k in buckets && !CounterOf(k, r))))
    case DropRepo(name) => Some(Tombstone(s, name, r))
    case RetireRepo(name, live, watermark) => Retire(s, name, live, watermark)
  }

  predicate Elsewhere(req: Request) {
    req.OpenUpload? || req.SaveUpload? || req.EndUpload? || req.CountPulls? || req.DropRepo? || req.RetireRepo?
  }

  function Landed(plan: Result<Effect, Error>): Option<Effect> {
    match plan case Ok(e) => Some(e) case Err(_) => None
  }

  /** A push by a digest that is not its document's is turned away before it interns a name. */
  predicate Misnamed(req: Request) { req.PutManifest? && req.claimed.Some? && req.claimed.value != req.digest }

  /** The store a call plans against, and the id it plans for. */
  function Arrive(s: Data, req: Request): (Data, Option<RepoId>) {
    if req.SaveUpload? || req.EndUpload? then (s, Some(0))
    else if req.Mount? && !Mountable(s, req.from, req.digest) then (s, None)
    else if Misnamed(req) then (s, None)
    else if Interns(req) then Intern(s, req.repo)
    else (s, IdOf(s, req.repo))
  }

  ghost function Batch(cfg: Config, s: Data, req: Request): Option<Effect> {
    var (s1, r) := Arrive(s, req);
    if r.None? then None else Plan(cfg, s1, r.value, req)
  }

  ghost function Serve(cfg: Config, s: Data, req: Request): Data {
    var (s1, _) := Arrive(s, req);
    match Batch(cfg, s, req) case Some(e) => Perform(s1, e) case None => s1
  }

  lemma ServeApplies(cfg: Config, s: Data, req: Request, s1: Data, r: RepoId, e: Effect)
    requires Arrive(s, req) == (s1, Some(r)) && (var planned := Plan(cfg, s1, r, req) == Some(e); planned)
    ensures Serve(cfg, s, req) == Perform(s1, e)
  {}

  /** A push that is not refused. */
  lemma AllowedPushIsServed(cfg: Config, s: Data, req: Request, s1: Data, r: RepoId, tags: set<Tag>)
    requires req.PutManifest? && Arrive(s, req) == (s1, Some(r)) && tags == Elements(req.tags)
    requires PushRefusal(cfg, s1, r, req.digest, req.claimed, req.tags).None?
    ensures var served := Serve(cfg, s, req) == Perform(s1, PushEffect(cfg, s1, r, req.digest, tags, req.now)); served
  {
    ServeApplies(cfg, s, req, s1, r, PushEffect(cfg, s1, r, req.digest, tags, req.now));
  }

  // --- invariants -------------------------------------------------------

  lemma ArriveKeepsInv(cfg: Config, s: Data, req: Request)
    requires Inv(cfg, s)
    ensures var (s1, r) := Arrive(s, req);
      && Inv(cfg, s1)
      && (r.Some? && !req.SaveUpload? && !req.EndUpload? ==> I(r.value) in s1 && IdOf(s1, req.repo) == r)
  {
    if Interns(req) { InternKeepsInv(cfg, s, req.repo); }
  }

  lemma SessionIsQuiet(cfg: Config, s: Data, s': Data, u: UploadId)
    requires Inv(cfg, s) && forall k: Key :: k != U(u) ==> SameKey(s, s', k)
    ensures Quiet(s, s')
  {
    forall k: Key, r: RepoId | k in s' && Mentions(k, r) ensures k in s { assert SameKey(s, s', k); }
    forall d: Digest ensures SameKey(s, s', C(d)) {}
    forall r: RepoId, d: Digest ensures SameKey(s, s', P(r, d)) {}
    forall b: Digest, r: RepoId, m: Digest ensures SameKey(s, s', R(b, r, m)) {}
  }

  lemma CountsAreQuiet(cfg: Config, s: Data, s': Data, r: RepoId)
    requires Inv(cfg, s) && I(r) in s && forall k: Key :: !CounterOf(k, r) ==> SameKey(s, s', k)
    ensures Quiet(s, s')
  {
    forall k: Key, x: RepoId | k in s' && Mentions(k, x) ensures k in s || x == r {
      assert CounterOf(k, r) || SameKey(s, s', k);
    }
    forall d: Digest ensures SameKey(s, s', C(d)) {}
    forall x: RepoId, d: Digest ensures SameKey(s, s', P(x, d)) {}
    forall b: Digest, x: RepoId, m: Digest ensures SameKey(s, s', R(b, x, m)) {}
  }

  lemma CommitKeepsInv(cfg: Config, s: Data, r: RepoId, req: Request)
    requires Inv(cfg, s) && I(r) in s && req.Commit?
    ensures Inv(cfg, Perform(s, Plan(cfg, s, r, req).value))
  {
    var e := CommitBlob(s, r, req.digest, req.size, req.now);
    var s1 := Perform(s, e);
    CommitIsQuiet(cfg, s, r, req.digest, req.size, req.now);
    QuietKeepsInv(cfg, s, s1);
    if req.closes.Some? {
      var s2 := Perform(s, Plan(cfg, s, r, req).value);
      forall k: Key | k != U(req.closes.value) ensures SameKey(s1, s2, k) {}
      SessionIsQuiet(cfg, s1, s2, req.closes.value);
      QuietKeepsInv(cfg, s1, s2);
    }
  }

  ghost predicate PlanIsSound(cfg: Config, s: Data, r: RepoId, req: Request)
    requires Plan(cfg, s, r, req).Some?
  {
    Inv(cfg, Perform(s, Plan(cfg, s, r, req).value))
  }

  lemma MountKeepsInv(cfg: Config, s: Data, r: RepoId, req: Request)
    requires Inv(cfg, s) && I(r) in s && req.Mount?
    ensures PlanIsSound(cfg, s, r, req)
  {
    CommitIsQuiet(cfg, s, r, req.digest, SizeOf(s, req.digest), req.now);
    QuietKeepsInv(cfg, s, Perform(s, Plan(cfg, s, r, req).value));
  }

  lemma PushPlanIsItsEffect(cfg: Config, s: Data, r: RepoId, req: Request)
    requires req.PutManifest? && Plan(cfg, s, r, req).Some?
    ensures Plan(cfg, s, r, req) == Some(PushEffect(cfg, s, r, req.digest, Elements(req.tags), req.now))
  {}

  lemma EffectIsPushed(cfg: Config, s: Data, r: RepoId, d: Digest, tags: set<Tag>, now: Millis, e: Effect)
    requires e == PushEffect(cfg, s, r, d, tags, now)
    ensures var pushed := Pushed(cfg, s, Perform(s, e), r, d, tags, now); pushed
  {
    PushIsPushed(cfg, s, r, d, tags, now);
  }

  lemma PushPlanIsPushed(cfg: Config, s: Data, r: RepoId, req: Request)
    requires req.PutManifest? && Plan(cfg, s, r, req).Some?
    ensures var pushed := Pushed(cfg, s, Perform(s, Plan(cfg, s, r, req).value), r, req.digest, Elements(req.tags), req.now); pushed
  {
    PushPlanIsItsEffect(cfg, s, r, req);
    EffectIsPushed(cfg, s, r, req.digest, Elements(req.tags), req.now, Plan(cfg, s, r, req).value);
  }

  lemma PushPlanIsAllowed(cfg: Config, s: Data, r: RepoId, req: Request)
    requires req.PutManifest? && Plan(cfg, s, r, req).Some?
    ensures PushRefusal(cfg, s, r, req.digest, req.claimed, req.tags).None?
  {}

  lemma AllowedPushHasChildren(cfg: Config, s: Data, r: RepoId, d: Digest, claimed: Option<Digest>, tags: seq<Tag>)
    requires PushRefusal(cfg, s, r, d, claimed, tags).None?
    ensures FirstMissingChild(s, r, cfg.doc(d).children).None?
  {}

  lemma PutManifestKeepsInv(cfg: Config, s: Data, r: RepoId, req: Request)
    requires Inv(cfg, s) && I(r) in s && req.PutManifest? && Plan(cfg, s, r, req).Some?
    ensures PlanIsSound(cfg, s, r, req)
  {
    PushPlanIsPushed(cfg, s, r, req);
    PushPlanIsAllowed(cfg, s, r, req);
    AllowedPushHasChildren(cfg, s, r, req.digest, req.claimed, req.tags);
    PushedInv(cfg, s, Perform(s, Plan(cfg, s, r, req).value), r, req.digest, Elements(req.tags), req.now);
  }

  lemma IndexPlanKeepsInv(cfg: Config, s: Data, r: RepoId, req: Request)
    requires Inv(cfg, s) && I(r) in s && Plan(cfg, s, r, req).Some?
    requires req.Retag? || req.Untag? || req.RemoveManifest? || req.PurgeManifest?
    ensures PlanIsSound(cfg, s, r, req)
  {
    match req {
      case Retag(_, t, d, now) => SetTagKeepsInv(cfg, s, r, t, d, now);
      case Untag(_, t, now) => DeleteTagKeepsInv(cfg, s, r, t, now);
      case RemoveManifest(_, d, now) => DeleteManifestKeepsInv(cfg, s, r, d, now);
      case PurgeManifest(_, d, now, _) => DeleteManifestKeepsInv(cfg, s, r, d, now);
    }
  }

  lemma RemoveBlobKeepsInv(cfg: Config, s: Data, r: RepoId, req: Request)
    requires Inv(cfg, s) && req.RemoveBlob? && Plan(cfg, s, r, req).Some?
    ensures PlanIsSound(cfg, s, r, req)
  {
    DeleteBlobIsQuiet(cfg, s, r, req.digest);
    QuietKeepsInv(cfg, s, Perform(s, Plan(cfg, s, r, req).value));
  }

  lemma SessionKeepsInv(cfg: Config, s: Data, r: RepoId, req: Request)
    requires Inv(cfg, s) && (req.OpenUpload? || req.SaveUpload? || req.EndUpload?)
    ensures PlanIsSound(cfg, s, r, req)
  {
    var s' := Perform(s, Plan(cfg, s, r, req).value);
    SessionIsQuiet(cfg, s, s', req.upload);
    QuietKeepsInv(cfg, s, s');
  }

  lemma CountsKeepInv(cfg: Config, s: Data, r: RepoId, req: Request)
    requires Inv(cfg, s) && I(r) in s && req.CountPulls?
    ensures PlanIsSound(cfg, s, r, req)
  {
    var s' := Perform(s, Plan(cfg, s, r, req).value);
    CountsAreQuiet(cfg, s, s', r);
    QuietKeepsInv(cfg, s, s');
  }

  lemma PlanKeepsInv(cfg: Config, s: Data, r: RepoId, req: Request)
    requires Inv(cfg, s) && Plan(cfg, s, r, req).Some?
    requires req.SaveUpload? || req.EndUpload? || (I(r) in s && IdOf(s, req.repo) == Some(r))
    ensures PlanIsSound(cfg, s, r, req)
  {
    if req.Commit? { CommitKeepsInv(cfg, s, r, req); }
    else if req.Mount? { MountKeepsInv(cfg, s, r, req); }
    else if req.PutManifest? { PutManifestKeepsInv(cfg, s, r, req); }
    else if req.Retag? || req.Untag? || req.RemoveManifest? || req.PurgeManifest? { IndexPlanKeepsInv(cfg, s, r, req); }
    else if req.RemoveBlob? { RemoveBlobKeepsInv(cfg, s, r, req); }
    else if req.CountPulls? { CountsKeepInv(cfg, s, r, req); }
    else if req.DropRepo? { TombstoneKeepsInv(cfg, s, req.repo, r); }
    else if req.RetireRepo? { RetireKeepsInv(cfg, s, req.repo, req.live, req.watermark); }
    else { SessionKeepsInv(cfg, s, r, req); }
  }

  /** Every call keeps every index invariant, whether it succeeds or is refused. */
  lemma ServeKeepsInv(cfg: Config, s: Data, req: Request)
    requires Inv(cfg, s)
    ensures Inv(cfg, Serve(cfg, s, req))
  {
    ArriveKeepsInv(cfg, s, req);
    var (s1, r) := Arrive(s, req);
    if Batch(cfg, s, req).Some? { PlanKeepsInv(cfg, s1, r.value, req); }
  }

  // --- what a call does to purge's clock --------------------------------

  /** The planned batch gives this blob a reason to exist, or takes one away. */
  predicate PlanTouches(cfg: Config, s: Data, r: RepoId, req: Request, d: Digest) {
    match req
    case Commit(_, b, _, _, _) => b == d
    case Mount(_, _, b, _) => b == d
    case PutManifest(_, m, _, _, _) => d in LinkedBlobs(s, r, cfg.doc(m).blobs)
    case RemoveBlob(_, b) => b == d
    case _ => false
  }

  ghost predicate Touches(cfg: Config, s: Data, req: Request, d: Digest) {
    && Batch(cfg, s, req).Some?
    && PlanTouches(cfg, Arrive(s, req).0, Arrive(s, req).1.value, req, d)
  }

  /**
   What a call may do around one blob's mark: it never places one, and it writes or removes a
   membership only with the mark gone.
   */
  ghost predicate ClockSafe(s: Data, s': Data, d: Digest) {
    && (C(d) in s' ==> C(d) in s && s'[C(d)] == s[C(d)])
    && (forall r: RepoId :: !SameKey(s, s', P(r, d)) ==> C(d) !in s')
  }

  ghost predicate BlobAlone(s: Data, s': Data, d: Digest) {
    SameKey(s, s', C(d)) && forall x: RepoId :: SameKey(s, s', P(x, d))
  }

  lemma CommitIsClockSafe(s: Data, r: RepoId, b: Digest, size: nat, now: Millis, extra: set<Key>, d: Digest)
    requires forall k :: k in extra ==> k.U?
    ensures var e := CommitBlob(s, r, b, size, now);
      ClockSafe(s, Perform(s, Effect(e.dels + extra, e.puts)), d) && C(b) !in Perform(s, Effect(e.dels + extra, e.puts))
  {}

  lemma PushedIsClockSafe(cfg: Config, s: Data, s': Data, r: RepoId, m: Digest, tags: set<Tag>, now: Millis, d: Digest)
    requires Pushed(cfg, s, s', r, m, tags, now)
    ensures ClockSafe(s, s', d) && (d in LinkedBlobs(s, r, cfg.doc(m).blobs) ==> C(d) !in s')
  {}

  lemma RetagLeavesBlobs(cfg: Config, s: Data, r: RepoId, t: Tag, m: Digest, now: Millis, d: Digest)
    ensures var e := SetTag(cfg, s, r, t, m, now); e.Ok? ==> BlobAlone(s, Perform(s, e.value), d)
  {
    var e := SetTag(cfg, s, r, t, m, now);
    if e.Ok? {
      var s' := Perform(s, e.value);
      RetagTouches(cfg, s, r, t, m, now, C(d));
      forall x: RepoId ensures SameKey(s, s', P(x, d)) { RetagTouches(cfg, s, r, t, m, now, P(x, d)); }
    }
  }

  lemma UntagLeavesBlobs(cfg: Config, s: Data, r: RepoId, t: Tag, now: Millis, d: Digest)
    ensures var e := DeleteTag(cfg, s, r, t, now); e.Ok? ==> BlobAlone(s, Perform(s, e.value), d)
  {
    var e := DeleteTag(cfg, s, r, t, now);
    if e.Ok? {
      var m := TagAt(s, r, t).value;
      var s' := Perform(s, e.value);
      DeleteTagTouches(cfg, s, r, t, m, now, C(d));
      forall x: RepoId ensures SameKey(s, s', P(x, d)) { DeleteTagTouches(cfg, s, r, t, m, now, P(x, d)); }
    }
  }

  lemma DeleteManifestLeavesBlobs(cfg: Config, s: Data, r: RepoId, m: Digest, now: Millis, d: Digest)
    ensures var e := DeleteManifest(cfg, s, r, m, now); e.Ok? ==> BlobAlone(s, Perform(s, e.value), d)
  {
    var e := DeleteManifest(cfg, s, r, m, now);
    if e.Ok? {
      var tags := TagsPointingAt(s, r, m);
      forall k: Key | k.C? || k.P? ensures SameKey(s, Perform(s, e.value), k) {
        DeleteManifestDelsAt(cfg, s, r, m, s[M(r, m)], tags, k);
        TagDropsAt(cfg, r, tags, m, k);
        TagEventsAt(r, tags, m, now, Deleted, k);
        PerformAt(s, e.value, k);
      }
    }
  }

  lemma DeleteBlobIsClockSafe(s: Data, r: RepoId, b: Digest, d: Digest)
    ensures var e := DeleteBlob(s, r, b); e.Ok? ==> ClockSafe(s, Perform(s, e.value), d) && C(b) !in Perform(s, e.value)
  {}

  lemma ElsewhereLeavesBlobs(s: Data, e: Effect, d: Digest)
    requires forall k :: k in e.dels || k in e.puts ==> !k.C? && !k.P?
    ensures BlobAlone(s, Perform(s, e), d)
  {
    PerformAt(s, e, C(d));
    forall x: RepoId ensures SameKey(s, Perform(s, e), P(x, d)) { PerformAt(s, e, P(x, d)); }
  }

  ghost predicate PlanIsSafe(cfg: Config, s: Data, r: RepoId, req: Request, d: Digest)
    requires Plan(cfg, s, r, req).Some?
  {
    var s' := Perform(s, Plan(cfg, s, r, req).value);
    ClockSafe(s, s', d) && (PlanTouches(cfg, s, r, req, d) ==> C(d) !in s')
  }

  lemma AloneIsClockSafe(s: Data, s': Data, d: Digest)
    requires BlobAlone(s, s', d)
    ensures ClockSafe(s, s', d)
  {}

  lemma ElsewhereIsSafe(cfg: Config, s: Data, r: RepoId, req: Request, d: Digest)
    requires Elsewhere(req) && Plan(cfg, s, r, req).Some?
    ensures PlanIsSafe(cfg, s, r, req, d)
  {
    var e := Plan(cfg, s, r, req).value;
    assert forall k :: k in e.dels || k in e.puts ==> !k.C? && !k.P?;
    ElsewhereLeavesBlobs(s, e, d);
    AloneIsClockSafe(s, Perform(s, Plan(cfg, s, r, req).value), d);
  }

  lemma CommitPlanIsSafe(cfg: Config, s: Data, r: RepoId, req: Request, d: Digest)
    requires req.Commit? && Plan(cfg, s, r, req).Some?
    ensures PlanIsSafe(cfg, s, r, req, d)
  {
    var extra: set<Key> := if req.closes.Some? then {U(req.closes.value)} else {};
    var e := CommitBlob(s, r, req.digest, req.size, req.now);
    assert e.dels + {} == e.dels;
    assert Plan(cfg, s, r, req).value == Effect(e.dels + extra, e.puts);
    CommitIsClockSafe(s, r, req.digest, req.size, req.now, extra, d);
  }

  lemma MountPlanIsSafe(cfg: Config, s: Data, r: RepoId, req: Request, d: Digest)
    requires req.Mount? && Plan(cfg, s, r, req).Some?
    ensures PlanIsSafe(cfg, s, r, req, d)
  {
    var e := CommitBlob(s, r, req.digest, SizeOf(s, req.digest), req.now);
    assert e.dels + {} == e.dels;
    CommitIsClockSafe(s, r, req.digest, SizeOf(s, req.digest), req.now, {}, d);
  }

  lemma PushPlanIsSafe(cfg: Config, s: Data, r: RepoId, req: Request, d: Digest)
    requires req.PutManifest? && Plan(cfg, s, r, req).Some?
    ensures PlanIsSafe(cfg, s, r, req, d)
  {
    PushPlanIsPushed(cfg, s, r, req);
    PushedIsClockSafe(cfg, s, Perform(s, Plan(cfg, s, r, req).value), r, req.digest, Elements(req.tags), req.now, d);
  }

  lemma RetagPlanIsSafe(cfg: Config, s: Data, r: RepoId, req: Request, d: Digest)
    requires req.Retag? && Plan(cfg, s, r, req).Some?
    ensures PlanIsSafe(cfg, s, r, req, d)
  {
    RetagLeavesBlobs(cfg, s, r, req.tag, req.digest, req.now, d);
    AloneIsClockSafe(s, Perform(s, Plan(cfg, s, r, req).value), d);
  }

  lemma UntagPlanIsSafe(cfg: Config, s: Data, r: RepoId, req: Request, d: Digest)
    requires req.Untag? && Plan(cfg, s, r, req).Some?
    ensures PlanIsSafe(cfg, s, r, req, d)
  {
    UntagLeavesBlobs(cfg, s, r, req.tag, req.now, d);
    AloneIsClockSafe(s, Perform(s, Plan(cfg, s, r, req).value), d);
  }

  lemma RemovePlanIsSafe(cfg: Config, s: Data, r: RepoId, req: Request, d: Digest)
    requires (req.RemoveManifest? || req.PurgeManifest?) && Plan(cfg, s, r, req).Some?
    ensures PlanIsSafe(cfg, s, r, req, d)
  {
    DeleteManifestLeavesBlobs(cfg, s, r, req.digest, req.now, d);
    AloneIsClockSafe(s, Perform(s, Plan(cfg, s, r, req).value), d);
  }

  lemma RemoveBlobPlanIsSafe(cfg: Config, s: Data, r: RepoId, req: Request, d: Digest)
    requires req.RemoveBlob? && Plan(cfg, s, r, req).Some?
    ensures PlanIsSafe(cfg, s, r, req, d)
  {
    DeleteBlobIsClockSafe(s, r, req.digest, d);
  }

  lemma PlanIsClockSafe(cfg: Config, s: Data, r: RepoId, req: Request, d: Digest)
    requires Plan(cfg, s, r, req).Some?
    ensures PlanIsSafe(cfg, s, r, req, d)
  {
    if req.Commit? { CommitPlanIsSafe(cfg, s, r, req, d); }
    else if req.Mount? { MountPlanIsSafe(cfg, s, r, req, d); }
    else if req.PutManifest? { PushPlanIsSafe(cfg, s, r, req, d); }
    else if req.Retag? { RetagPlanIsSafe(cfg, s, r, req, d); }
    else if req.Untag? { UntagPlanIsSafe(cfg, s, r, req, d); }
    else if req.RemoveManifest? || req.PurgeManifest? { RemovePlanIsSafe(cfg, s, r, req, d); }
    else if req.RemoveBlob? { RemoveBlobPlanIsSafe(cfg, s, r, req, d); }
    else { ElsewhereIsSafe(cfg, s, r, req, d); }
  }

  lemma ServeIsClockSafe(cfg: Config, s: Data, req: Request, d: Digest)
    ensures ClockSafe(s, Serve(cfg, s, req), d)
    ensures Touches(cfg, s, req, d) ==> C(d) !in Serve(cfg, s, req)
  {
    var (s1, r) := Arrive(s, req);
    assert SameKey(s, s1, C(d));
    assert forall x: RepoId :: SameKey(s, s1, P(x, d));
    if Batch(cfg, s, req).Some? {
      PlanIsClockSafe(cfg, s1, r.value, req, d);
      var s' := Serve(cfg, s, req);
      forall x: RepoId ensures SameKey(s, s', P(x, d)) <==> SameKey(s1, s', P(x, d)) { assert SameKey(s, s1, P(x, d)); }
    }
  }
}
