/**
 What each call does to the store, key by key and over every key, and exactly when it does
 nothing: stated from the request and the store it finds, without the plan in between.
 */
module Answers {
  import opened Results
  import opened Paging
  import opened Keys
  import opened Store
  import opened Interner
  import opened Registry
  import opened Invariants
  import opened IndexSteps
  import opened Retractions
  import opened Requests
  import opened Guards

  /** Whole seconds, which is all a record keeps of an instant. */
  predicate InSeconds(secs: nat, now: Millis) { secs * 1000 <= now < secs * 1000 + 1000 }

  lemma SecsAreSeconds(now: Millis)
    ensures InSeconds(Secs(now), now)
  {}

  lemma OneSecond(a: nat, b: nat, now: Millis)
    requires InSeconds(a, now) && InSeconds(b, now)
    ensures a == b
  {}

  ghost predicate IsMember(v: Val, size: nat, now: Millis) { v.MemberV? && v.bytes == size && InSeconds(v.addedAt, now) }

  // --- blobs ------------------------------------------------------------

  /** A blob landing in a repository: its record, a membership if there was none, and its mark gone. */
  ghost predicate Lands(s: Data, s': Data, r: RepoId, d: Digest, size: nat, now: Millis, k: Key) {
    if k == B(d) then k in s' && s'[k] == BlobV(size)
    else if k == C(d) then k !in s'
    else if k == P(r, d) && k !in s then k in s' && IsMember(s'[k], size, now)
    else SameKey(s, s', k)
  }

  lemma CommitLands(s: Data, r: RepoId, d: Digest, size: nat, now: Millis, k: Key)
    ensures Lands(s, Perform(s, CommitBlob(s, r, d, size, now)), r, d, size, now, k)
  {
    PerformAt(s, CommitBlob(s, r, d, size, now), k);
    SecsAreSeconds(now);
  }

  /** A commit, and in the same batch the end of the upload it closes, if it closes one. */
  ghost predicate CommitAnswer(s: Data, s': Data, r: RepoId, req: Request, k: Key)
    requires req.Commit?
  {
    if req.closes.Some? && k == U(req.closes.value) then k !in s' else Lands(s, s', r, req.digest, req.size, req.now, k)
  }

  lemma CommitAnswers(cfg: Config, s: Data, req: Request, s1: Data, r: RepoId)
    requires req.Commit? && Intern(s, req.repo) == (s1, Some(r))
    ensures forall k: Key :: CommitAnswer(s1, Serve(cfg, s, req), r, req, k)
  {
    var e := CommitBlob(s1, r, req.digest, req.size, req.now);
    var whole := match req.closes case Some(u) => e.(dels := e.dels + {U(u)}) case None => e;
    CommitPlan(cfg, s1, r, req, whole);
    ServeApplies(cfg, s, req, s1, r, whole);
    forall k: Key ensures CommitAnswer(s1, Perform(s1, whole), r, req, k) {
      CommitLands(s1, r, req.digest, req.size, req.now, k);
      PerformAt(s1, e, k);
      PerformAt(s1, whole, k);
    }
  }

  lemma CommitPlan(cfg: Config, s: Data, r: RepoId, req: Request, e: Effect)
    requires req.Commit?
    requires e == match req.closes
                  case Some(u) => (var c := CommitBlob(s, r, req.digest, req.size, req.now); c.(dels := c.dels + {U(u)}))
                  case None => CommitBlob(s, r, req.digest, req.size, req.now)
    ensures var planned := Plan(cfg, s, r, req) == Some(e); planned
  {}

  /** A mount keeps the blob's record and joins at its size. Without a source entitled to the blob it does nothing. */
  lemma MountAnswers(cfg: Config, s: Data, req: Request, s1: Data, r: RepoId)
    requires req.Mount? && Intern(s, req.repo) == (s1, Some(r)) && (B(req.digest) in s ==> s[B(req.digest)].BlobV?)
    ensures !Offered(s, req.from, req.digest) ==> Serve(cfg, s, req) == s
    ensures Offered(s, req.from, req.digest) ==>
      && SameKey(s, Serve(cfg, s, req), B(req.digest)) && Present(Serve(cfg, s, req), r, req.digest)
      && forall k: Key :: Lands(s1, Serve(cfg, s, req), r, req.digest, s[B(req.digest)].size, req.now, k)
  {
    MountableIff(s, req.from, req.digest);
    if Offered(s, req.from, req.digest) {
      assert SameKey(s, s1, B(req.digest));
      var e := CommitBlob(s1, r, req.digest, s[B(req.digest)].size, req.now);
      MountPlan(cfg, s1, r, req, s[B(req.digest)].size);
      assert Arrive(s, req) == (s1, Some(r));
      ServeApplies(cfg, s, req, s1, r, e);
      MountLanded(s, s1, r, req.digest, s[B(req.digest)].size, req.now);
    } else {
      assert Arrive(s, req) == (s, None);
    }
  }

  lemma MountableIff(s: Data, from: Option<Name>, d: Digest)
    ensures Mountable(s, from, d) <==> Offered(s, from, d)
  {
    if from.Some? && IdOf(s, from.value).Some? { ServableIff(s, IdOf(s, from.value).value, d); }
  }

  lemma MountPlan(cfg: Config, s: Data, r: RepoId, req: Request, size: nat)
    requires req.Mount? && B(req.digest) in s && s[B(req.digest)] == BlobV(size)
    ensures var planned := Plan(cfg, s, r, req) == Some(CommitBlob(s, r, req.digest, size, req.now)); planned
  {}

  lemma MountLanded(s: Data, s1: Data, r: RepoId, d: Digest, size: nat, now: Millis)
    requires B(d) in s && s[B(d)] == BlobV(size)
    ensures var s' := Perform(s1, CommitBlob(s1, r, d, size, now));
      && SameKey(s, s', B(d)) && Present(s', r, d) && forall k: Key :: Lands(s1, s', r, d, size, now, k)
  {
    var s' := Perform(s1, CommitBlob(s1, r, d, size, now));
    forall k: Key ensures Lands(s1, s', r, d, size, now, k) { CommitLands(s1, r, d, size, now, k); }
    assert Lands(s1, s', r, d, size, now, B(d)) && Lands(s1, s', r, d, size, now, P(r, d));
  }

  /** A blob delete ends the membership, every reference by this repository, and purge's mark. */
  ghost predicate RemoveBlobAnswer(s: Data, s': Data, r: RepoId, b: Digest, k: Key) {
    if k == P(r, b) || k == C(b) || (k.R? && k.blob == b && k.repo == r) then k !in s' else SameKey(s, s', k)
  }

  lemma RemoveBlobAnswers(cfg: Config, s: Data, req: Request)
    requires req.RemoveBlob?
    ensures match IdOf(s, req.repo)
      case None => Serve(cfg, s, req) == s
      case Some(r) =>
        if Entitled(s, r, req.digest) then forall k: Key :: RemoveBlobAnswer(s, Serve(cfg, s, req), r, req.digest, k)
        else Serve(cfg, s, req) == s
  {
    if IdOf(s, req.repo).Some? {
      var r := IdOf(s, req.repo).value;
      ServableIff(s, r, req.digest);
      if Entitled(s, r, req.digest) {
        var e := DeleteBlob(s, r, req.digest).value;
        ServeApplies(cfg, s, req, s, r, e);
        forall k: Key ensures RemoveBlobAnswer(s, Perform(s, e), r, req.digest, k) { PerformAt(s, e, k); }
      }
    }
  }

  // --- manifests --------------------------------------------------------

  /** A layer the push links: named by the document, stored, and the repository's. */
  ghost predicate Linkable(cfg: Config, s: Data, r: RepoId, d: Digest, b: Digest) {
    B(b) in s && Entitled(s, r, b) && exists i :: 0 <= i < |cfg.doc(d).blobs| && cfg.doc(d).blobs[i].digest == b
  }

  lemma LinkedIff(cfg: Config, s: Data, r: RepoId, d: Digest, b: Digest)
    ensures b in LinkedBlobs(s, r, cfg.doc(d).blobs) <==> Linkable(cfg, s, r, d, b)
  {
    ServableIff(s, r, b);
    if Linkable(cfg, s, r, d, b) {
      var i :| 0 <= i < |cfg.doc(d).blobs| && cfg.doc(d).blobs[i].digest == b;
      assert Present(s, r, cfg.doc(d).blobs[i].digest);
    }
  }

  /** The record a push writes: its document's layers, children and subject, and the second it was pushed. */
  ghost predicate IsRecord(cfg: Config, d: Digest, now: Millis, v: Val) {
    && v.ManifestV? && InSeconds(v.pushedAt, now)
    && |v.layers| == |cfg.doc(d).blobs| && (forall i :: 0 <= i < |v.layers| ==> v.layers[i] == cfg.doc(d).blobs[i].digest)
    && v.children == cfg.doc(d).children && v.subject == cfg.doc(d).subject
  }

  ghost predicate IsTag(v: Val, d: Digest, now: Millis) { v.TagV? && v.target == d && InSeconds(v.taggedAt, now) }

  /** One key after a push. */
  ghost predicate PushAnswer(cfg: Config, s: Data, s': Data, r: RepoId, d: Digest, tags: set<Tag>, now: Millis, k: Key) {
    match k
    case M(x, y) => if x == r && y == d then k in s' && IsRecord(cfg, d, now, s'[k]) else SameKey(s, s', k)
    case T(x, t) => if x == r && t in tags then k in s' && IsTag(s'[k], d, now) else SameKey(s, s', k)
    case R(b, x, m) => if x == r && m == d && Linkable(cfg, s, r, d, b) then k in s' else SameKey(s, s', k)
    case C(b) => if Linkable(cfg, s, r, d, b) then k !in s' else SameKey(s, s', k)
    case P(x, b) =>
      if x == r && Linkable(cfg, s, r, d, b) && k !in s
      then k in s' && (s[B(b)].BlobV? ==> IsMember(s'[k], s[B(b)].size, now)) else SameKey(s, s', k)
    case _ => PushEntry(cfg, s, s', r, d, {}, tags, now, k)
  }

  lemma PushAnswerAt(cfg: Config, s: Data, r: RepoId, d: Digest, tags: set<Tag>, now: Millis, k: Key)
    ensures PushAnswer(cfg, s, Perform(s, PushEffect(cfg, s, r, d, tags, now)), r, d, tags, now, k)
  {
    PushTouches(cfg, s, r, d, tags, now, k);
    SecsAreSeconds(now);
    if k.R? { LinkedIff(cfg, s, r, d, k.blob); } else if k.C? || k.P? { LinkedIff(cfg, s, r, d, k.digest); }
  }

  /** A push goes ahead exactly when it may, and otherwise leaves the store as it found it, name apart; by a wrong digest, name included. */
  lemma PushAnswers(cfg: Config, s: Data, req: Request, s1: Data, r: RepoId)
    requires req.PutManifest? && Intern(s, req.repo) == (s1, Some(r))
    ensures if Pushable(cfg, s1, r, req.digest, req.claimed, req.tags)
      then forall k: Key :: PushAnswer(cfg, s1, Serve(cfg, s, req), r, req.digest, Elements(req.tags), req.now, k)
      else Serve(cfg, s, req) == if DigestAgrees(req.digest, req.claimed) then s1 else s
  {
    RefusalIff(cfg, s1, r, req.digest, req.claimed, req.tags);
    assert Arrive(s, req) == if DigestAgrees(req.digest, req.claimed) then (s1, Some(r)) else (s, None);
    if Pushable(cfg, s1, r, req.digest, req.claimed, req.tags) {
      AllowedPushIsServed(cfg, s, req, s1, r, Elements(req.tags));
      forall k: Key ensures PushAnswer(cfg, s1, Serve(cfg, s, req), r, req.digest, Elements(req.tags), req.now, k) {
        PushAnswerAt(cfg, s1, r, req.digest, Elements(req.tags), req.now, k);
      }
    } else {
      assert Batch(cfg, s, req) == None;
    }
  }

  /** In particular a push by a digest that is not the document's changes nothing at all. */
  lemma WrongDigestIsRefused(cfg: Config, s: Data, req: Request)
    requires req.PutManifest? && req.claimed.Some? && req.claimed.value != req.digest
    ensures Serve(cfg, s, req) == s
  {
    var (s1, r) := Intern(s, req.repo);
    if r.Some? { PushAnswers(cfg, s, req, s1, r.value); } else { ExhaustedAnswers(cfg, s, req); }
  }

  /** One key after a manifest delete: every edge with an end there, its tags, and their events. */
  ghost predicate RemoveAnswer(cfg: Config, s: Data, s': Data, r: RepoId, d: Digest, now: Millis, k: Key) {
    match k
    case M(x, y) => if x == r && y == d then k !in s' else SameKey(s, s', k)
    case Z(x, y) => if x == r && y == d then k !in s' else SameKey(s, s', k)
    case T(x, t) => if x == r && TagAt(s, r, t) == Some(d) then k !in s' else SameKey(s, s', k)
    case G(x, y, _) => k in s' <==> k in s && !(x == r && y == d)
    case R(_, x, m) => k in s' <==> k in s && !(x == r && m == d)
    case S(x, c, p) => k in s' <==> k in s && !(x == r && (p == d || c == d))
    case F(x, _, f) => k in s' <==> k in s && !(x == r && f == d)
    case H(x, t, at, y) =>
      if x == r && TagAt(s, r, t) == Some(d) && at == now && y == d then k in s' && s'[k] == EventV(Deleted) else SameKey(s, s', k)
    case J(x, y, at, t) =>
      if x == r && TagAt(s, r, t) == Some(d) && at == now && y == d then k in s' && s'[k] == EventV(Deleted) else SameKey(s, s', k)
    case _ => SameKey(s, s', k)
  }

  lemma RemoveAnswerAt(cfg: Config, s: Data, r: RepoId, d: Digest, now: Millis, k: Key)
    requires Inv(cfg, s) && M(r, d) in s
    ensures DeleteManifest(cfg, s, r, d, now).Ok?
    ensures RemoveAnswer(cfg, s, Perform(s, DeleteManifest(cfg, s, r, d, now).value), r, d, now, k)
  {
    var tags := TagsPointingAt(s, r, d);
    DeleteManifestTouches(cfg, s, r, d, tags, now, k);
    if k.T? || k.H? || k.J? || k.G? { TagsPointing(s, r, d, k.tag); }
    if k.F? && k in s && k.repo == r && k.referrer == d {
      if NamedByTag(cfg, s, r, k.subject, d) {
        var t: Tag :| TagAt(s, r, t) == Some(d) && cfg.subjectOf(t) == Some(k.subject);
        TagsPointing(s, r, d, t);
        assert NamesSubject(cfg, tags, k.subject);
      }
    }
  }

  lemma RemovalServed(cfg: Config, s: Data, req: Request, r: RepoId)
    requires Inv(cfg, s) && (req.RemoveManifest? || req.PurgeManifest?) && IdOf(s, req.repo) == Some(r) && M(r, req.digest) in s
    requires req.PurgeManifest? ==> Purgeable(s, r, req.digest, req.pushedBefore)
    ensures forall k: Key :: RemoveAnswer(cfg, s, Serve(cfg, s, req), r, req.digest, req.now, k)
  {
    RemoveAnswerAt(cfg, s, r, req.digest, req.now, M(r, req.digest));
    var e := DeleteManifest(cfg, s, r, req.digest, req.now).value;
    ServeApplies(cfg, s, req, s, r, e);
    forall k: Key ensures RemoveAnswer(cfg, s, Serve(cfg, s, req), r, req.digest, req.now, k) {
      RemoveAnswerAt(cfg, s, r, req.digest, req.now, k);
    }
  }

  /** A manifest delete takes effect exactly when the manifest is there. */
  lemma RemoveAnswers(cfg: Config, s: Data, req: Request)
    requires Inv(cfg, s) && req.RemoveManifest?
    ensures match IdOf(s, req.repo)
      case None => Serve(cfg, s, req) == s
      case Some(r) =>
        if M(r, req.digest) in s then forall k: Key :: RemoveAnswer(cfg, s, Serve(cfg, s, req), r, req.digest, req.now, k)
        else Serve(cfg, s, req) == s
  {
    if IdOf(s, req.repo).Some? && M(IdOf(s, req.repo).value, req.digest) in s {
      RemovalServed(cfg, s, req, IdOf(s, req.repo).value);
    }
  }

  /** A purge takes a manifest exactly when nothing needs it, and is then the same delete. */
  lemma PurgeAnswers(cfg: Config, s: Data, req: Request)
    requires Inv(cfg, s) && req.PurgeManifest?
    ensures match IdOf(s, req.repo)
      case None => Serve(cfg, s, req) == s
      case Some(r) =>
        if Unneeded(s, r, req.digest, req.pushedBefore)
        then forall k: Key :: RemoveAnswer(cfg, s, Serve(cfg, s, req), r, req.digest, req.now, k)
        else Serve(cfg, s, req) == s
  {
    if IdOf(s, req.repo).Some? {
      var r := IdOf(s, req.repo).value;
      PurgeableIff(s, r, req.digest, req.pushedBefore);
      if Unneeded(s, r, req.digest, req.pushedBefore) { RemovalServed(cfg, s, req, r); }
    }
  }

  // --- tags -------------------------------------------------------------

  ghost predicate RetagAnswer(cfg: Config, s: Data, s': Data, r: RepoId, t: Tag, d: Digest, now: Millis, k: Key) {
    match k
    case T(x, u) => if x == r && u == t then k in s' && IsTag(s'[k], d, now) else SameKey(s, s', k)
    case _ => RetagEntry(cfg, s, s', r, t, d, now, k)
  }

  lemma RetagAnswers(cfg: Config, s: Data, req: Request)
    requires req.Retag?
    ensures match IdOf(s, req.repo)
      case None => Serve(cfg, s, req) == s
      case Some(r) =>
        if ValidTag(req.tag) && M(r, req.digest) in s
        then forall k: Key :: RetagAnswer(cfg, s, Serve(cfg, s, req), r, req.tag, req.digest, req.now, k)
        else Serve(cfg, s, req) == s
  {
    if IdOf(s, req.repo).Some? && ValidTag(req.tag) && M(IdOf(s, req.repo).value, req.digest) in s {
      var r := IdOf(s, req.repo).value;
      var e := SetTag(cfg, s, r, req.tag, req.digest, req.now).value;
      ServeApplies(cfg, s, req, s, r, e);
      SecsAreSeconds(req.now);
      forall k: Key ensures RetagAnswer(cfg, s, Serve(cfg, s, req), r, req.tag, req.digest, req.now, k) {
        RetagTouches(cfg, s, r, req.tag, req.digest, req.now, k);
      }
    }
  }

  lemma UntagAnswers(cfg: Config, s: Data, req: Request)
    requires req.Untag?
    ensures match IdOf(s, req.repo)
      case None => Serve(cfg, s, req) == s
      case Some(r) =>
        if TagAt(s, r, req.tag).Some?
        then forall k: Key :: DropEntry(cfg, s, Serve(cfg, s, req), r, TagAt(s, r, req.tag).value, {req.tag}, req.now, false, k)
        else Serve(cfg, s, req) == s
  {
    if IdOf(s, req.repo).Some? && TagAt(s, IdOf(s, req.repo).value, req.tag).Some? {
      var r := IdOf(s, req.repo).value;
      var d := TagAt(s, r, req.tag).value;
      var e := Effect(DeleteTagDels(cfg, r, req.tag, d), DeleteTagPuts(r, req.tag, d, req.now));
      ServeApplies(cfg, s, req, s, r, e);
      forall k: Key ensures DropEntry(cfg, s, Serve(cfg, s, req), r, d, {req.tag}, req.now, false, k) {
        DeleteTagTouches(cfg, s, r, req.tag, d, req.now, k);
      }
    }
  }

  // --- sessions, counters, names ----------------------------------------

  ghost predicate SessionIs(s': Data, u: UploadId, owner: RepoId, now: Millis) {
    U(u) in s' && s'[U(u)].SessionV? && s'[U(u)].owner == owner && InSeconds(s'[U(u)].updatedAt, now)
  }

  lemma OpenAnswers(cfg: Config, s: Data, req: Request, s1: Data, r: RepoId)
    requires req.OpenUpload? && Intern(s, req.repo) == (s1, Some(r))
    ensures SessionIs(Serve(cfg, s, req), req.upload, r, req.now)
    ensures forall k: Key :: k != U(req.upload) ==> SameKey(s1, Serve(cfg, s, req), k)
  {
    ServeApplies(cfg, s, req, s1, r, Effect({}, map[U(req.upload) := SessionV(r, Secs(req.now))]));
    SecsAreSeconds(req.now);
  }

  lemma SessionAnswers(cfg: Config, s: Data, req: Request)
    requires req.SaveUpload? || req.EndUpload?
    ensures req.SaveUpload? ==> SessionIs(Serve(cfg, s, req), req.upload, req.owner, req.now)
    ensures req.EndUpload? ==> U(req.upload) !in Serve(cfg, s, req)
    ensures forall k: Key :: k != U(req.upload) ==> SameKey(s, Serve(cfg, s, req), k)
  {
    if req.SaveUpload? {
      ServeApplies(cfg, s, req, s, 0, Effect({}, map[U(req.upload) := SessionV(req.owner, Secs(req.now))]));
      SecsAreSeconds(req.now);
    } else {
      ServeApplies(cfg, s, req, s, 0, Effect({U(req.upload)}, map[]));
    }
  }

  lemma CountAnswers(cfg: Config, s: Data, req: Request)
    requires req.CountPulls?
    ensures match IdOf(s, req.repo)
      case None => Serve(cfg, s, req) == s
      case Some(r) => forall k: Key ::
        if k in req.buckets && (k.CountManifest? || k.CountTag? || k.CountRepo?) && k.repo == r
        then k in Serve(cfg, s, req) && Serve(cfg, s, req)[k] == req.buckets[k]
        else SameKey(s, Serve(cfg, s, req), k)
  {
    if IdOf(s, req.repo).Some? {
      var r := IdOf(s, req.repo).value;
      var e := PlanElsewhere(s, r, req).value;
      ServeApplies(cfg, s, req, s, r, e);
      forall k: Key
        ensures if k in req.buckets && (k.CountManifest? || k.CountTag? || k.CountRepo?) && k.repo == r
          then k in Serve(cfg, s, req) && Serve(cfg, s, req)[k] == req.buckets[k]
          else SameKey(s, Serve(cfg, s, req), k)
      { PerformAt(s, e, k); }
    }
  }

  /** A drop trades the name for a sweep on record, whatever lies under the id. */
  ghost predicate DropAnswer(s: Data, s': Data, name: Name, r: RepoId, k: Key) {
    if k == N(name) || k == I(r) then k !in s'
    else if k == Dead(r) then k in s' && s'[k] == DeadV(name)
    else SameKey(s, s', k)
  }

  lemma DropAnswers(cfg: Config, s: Data, req: Request)
    requires req.DropRepo?
    ensures match IdOf(s, req.repo)
      case None => Serve(cfg, s, req) == s
      case Some(r) => forall k: Key :: DropAnswer(s, Serve(cfg, s, req), req.repo, r, k)
  {
    if IdOf(s, req.repo).Some? {
      var r := IdOf(s, req.repo).value;
      ServeApplies(cfg, s, req, s, r, Tombstone(s, req.repo, r));
      forall k: Key ensures DropAnswer(s, Serve(cfg, s, req), req.repo, r, k) { PerformAt(s, Tombstone(s, req.repo, r), k); }
    }
  }

  /** A retirement releases a name exactly when it may, and touches nothing else. */
  lemma RetireAnswers(cfg: Config, s: Data, req: Request)
    requires req.RetireRepo?
    ensures if Retirable(s, req.repo, req.live, req.watermark)
      then forall k: Key ::
        if k == N(req.repo) || k == I(s[N(req.repo)].id) then k !in Serve(cfg, s, req) else SameKey(s, Serve(cfg, s, req), k)
      else Serve(cfg, s, req) == s
  {
    RetireIff(s, req.repo, req.live, req.watermark);
    if Retirable(s, req.repo, req.live, req.watermark) {
      var e := Effect({N(req.repo), I(s[N(req.repo)].id)}, map[]);
      ServeApplies(cfg, s, req, s, s[N(req.repo)].id, e);
      forall k: Key ensures if k in e.dels then k !in Serve(cfg, s, req) else SameKey(s, Serve(cfg, s, req), k) { PerformAt(s, e, k); }
    }
  }

  /** A call that would have to intern a name when ids have run out changes nothing. */
  lemma ExhaustedAnswers(cfg: Config, s: Data, req: Request)
    requires Interns(req) && Intern(s, req.repo).1.None?
    ensures Serve(cfg, s, req) == s
  {}
}
