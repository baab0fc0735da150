/**
 Tag mutations with the plan and the apply as separate steps, under striped per-name locks, while
 the repository sweeper wipes dead ids without any lock. The reverse index survives every
 interleaving - because ids are never shared between names, and because a push writes both ends
 of everything it writes.
 */
module RepoLocks {
  import opened Results
  import opened Paging
  import opened Keys
  import opened Store
  import opened Registry
  import opened Invariants
  import opened IndexSteps
  import opened Retractions

  /** What a lock holder is about to apply, and the id it planned for. */
  datatype Pending = Pending(repo: RepoId, batch: Effect)

  /**
   `issued` is every id ever handed out, with its one name; `held` is the shards whose lock is
   taken, each by one planned mutation.
   */
  datatype Locked = Locked(store: Data, issued: map<RepoId, Name>, held: map<nat, Pending>)

  datatype Mutation =
    | Pushing(digest: Digest, claimed: Option<Digest>, tags: seq<Tag>, now: Millis)
    | Untagging(tag: Tag, now: Millis)
    | Deleting(digest: Digest, now: Millis)
    | Purging(digest: Digest, pushedBefore: nat, now: Millis)

  ghost function PlanOf(cfg: Config, s: Data, r: RepoId, m: Mutation): Option<Effect> {
    match m
    case Pushing(d, claimed, tags, now) =>
      (match Push(cfg, s, r, d, claimed, tags, now) case Ok(e) => Some(e) case Err(_) => None)
    case Untagging(t, now) => (match DeleteTag(cfg, s, r, t, now) case Ok(e) => Some(e) case Err(_) => None)
    case Deleting(d, now) => (match DeleteManifest(cfg, s, r, d, now) case Ok(e) => Some(e) case Err(_) => None)
    case Purging(d, pushedBefore, now) =>
      if Purgeable(s, r, d, pushedBefore)
      then (match DeleteManifest(cfg, s, r, d, now) case Ok(e) => Some(e) case Err(_) => None)
      else None
  }

  datatype Action =
    | Issue(id: RepoId, name: Name)
    | Plan(name: Name, id: RepoId, mutation: Mutation)
    | Apply(shard: nat)
    | Wipe(id: RepoId)
    | Elsewhere(store: Data)

  predicate TagKey(k: Key) { k.T? || k.G? || k.M? || k.Z? }

  /**
   A plan may run under any id its name has ever had - a lookup may be stale by the time it is
   used - and any id may be wiped at any moment. Everything else the registry does leaves these
   ranges alone.
   */
  ghost predicate Act(cfg: Config, shard: Name -> nat, s: Locked, a: Action, s': Locked) {
    match a
    case Issue(id, name) => id !in s.issued && s' == s.(issued := s.issued[id := name])
    case Plan(name, id, m) =>
      && shard(name) !in s.held && id in s.issued && s.issued[id] == name
      && PlanOf(cfg, s.store, id, m).Some?
      && s' == s.(held := s.held[shard(name) := Pending(id, PlanOf(cfg, s.store, id, m).value)])
    case Apply(n) =>
      n in s.held && s' == s.(store := Perform(s.store, s.held[n].batch), held := s.held - {n})
    case Wipe(id) => s' == s.(store := FinishSweep(s.store, id))
    case Elsewhere(store) => (forall k: Key :: TagKey(k) ==> SameKey(s.store, store, k)) && s' == s.(store := store)
  }

  // --- one repository's index -------------------------------------------

  /** The tag index of one repository. */
  ghost predicate IndexOf(s: Data, r: RepoId) {
    && (forall d: Digest, t: Tag :: G(r, d, t) in s <==> TagAt(s, r, t) == Some(d))
    && (forall d: Digest :: M(r, d) in s <==> Z(r, d) in s)
    && (forall t: Tag :: T(r, t) in s && s[T(r, t)].TagV? ==> M(r, s[T(r, t)].target) in s)
  }

  lemma IndexByRepo(s: Data)
    ensures TagIndex(s) <==> forall r: RepoId :: IndexOf(s, r)
  {
    if forall r: RepoId :: IndexOf(s, r) {
      forall r: RepoId, d: Digest, t: Tag ensures G(r, d, t) in s <==> TagAt(s, r, t) == Some(d) { assert IndexOf(s, r); }
      forall r: RepoId, d: Digest ensures M(r, d) in s <==> Z(r, d) in s { assert IndexOf(s, r); }
      forall r: RepoId, t: Tag | T(r, t) in s && s[T(r, t)].TagV? ensures M(r, s[T(r, t)].target) in s { assert IndexOf(s, r); }
    }
  }

  ghost predicate Alike(s: Data, s': Data, r: RepoId) {
    forall k: Key :: TagKey(k) && k.repo == r ==> SameKey(s, s', k)
  }

  lemma IndexIsLocal(s: Data, s': Data, r: RepoId)
    requires Alike(s, s', r) && IndexOf(s, r)
    ensures IndexOf(s', r)
  {
    forall t: Tag ensures SameKey(s, s', T(r, t)) {}
    forall d: Digest ensures SameKey(s, s', M(r, d)) && SameKey(s, s', Z(r, d)) {}
    forall d: Digest, t: Tag ensures SameKey(s, s', G(r, d, t)) {}
  }

  // --- what a pending batch promises ------------------------------------

  ghost predicate Confined(e: Effect, r: RepoId) {
    forall k: Key :: TagKey(k) && (k in e.dels || k in e.puts) ==> k.repo == r
  }

  /** Whether or not the sweeper gets there first, applying the batch leaves a sound index. */
  ghost predicate Sound(s: Data, p: Pending) {
    && Confined(p.batch, p.repo)
    && IndexOf(Perform(s, p.batch), p.repo)
    && IndexOf(Perform(FinishSweep(s, p.repo), p.batch), p.repo)
  }

  ghost predicate LockInv(shard: Name -> nat, s: Locked) {
    && TagIndex(s.store)
    && (forall n :: n in s.held ==> s.held[n].repo in s.issued && shard(s.issued[s.held[n].repo]) == n)
    && (forall n :: n in s.held ==> Sound(s.store, s.held[n]))
  }

  lemma PerformAlike(s: Data, s': Data, e: Effect, r: RepoId)
    requires Alike(s, s', r)
    ensures Alike(Perform(s, e), Perform(s', e), r)
  {
    forall k: Key | TagKey(k) && k.repo == r ensures SameKey(Perform(s, e), Perform(s', e), k) {
      assert SameKey(s, s', k);
      PerformAt(s, e, k);
      PerformAt(s', e, k);
    }
  }

  lemma FinishAlike(s: Data, s': Data, id: RepoId, r: RepoId)
    requires Alike(s, s', r)
    ensures Alike(FinishSweep(s, id), FinishSweep(s', id), r)
  {
    forall k: Key | TagKey(k) && k.repo == r ensures SameKey(FinishSweep(s, id), FinishSweep(s', id), k) {
      assert SameKey(s, s', k);
    }
  }

  /** What a pending batch promises depends only on its own repository's index. */
  lemma SoundIsLocal(s: Data, s': Data, p: Pending)
    requires Alike(s, s', p.repo) && Sound(s, p)
    ensures Sound(s', p)
  {
    PerformAlike(s, s', p.batch, p.repo);
    IndexIsLocal(Perform(s, p.batch), Perform(s', p.batch), p.repo);
    FinishAlike(s, s', p.repo, p.repo);
    PerformAlike(FinishSweep(s, p.repo), FinishSweep(s', p.repo), p.batch, p.repo);
    IndexIsLocal(Perform(FinishSweep(s, p.repo), p.batch), Perform(FinishSweep(s', p.repo), p.batch), p.repo);
  }

  lemma SoundAfterWipe(s: Data, p: Pending)
    requires Sound(s, p)
    ensures Sound(FinishSweep(s, p.repo), p)
  {
    var w := FinishSweep(s, p.repo);
    assert FinishSweep(w, p.repo) == w;
  }

  // --- plans are sound --------------------------------------------------

  lemma WipedAt(s: Data, r: RepoId, e: Effect, k: Key)
    requires TagKey(k) && k.repo == r
    ensures k in Perform(FinishSweep(s, r), e) <==> k in e.puts
    ensures k in e.puts ==> Perform(FinishSweep(s, r), e)[k] == e.puts[k]
  {
    PerformAt(FinishSweep(s, r), e, k);
  }

  /** What a push puts in the index ranges: the manifest, its body, and both ends of every tag. */
  ghost predicate PushPuts(puts: Data, r: RepoId, d: Digest, tags: set<Tag>, now: Millis, k: Key) {
    match k
    case M(x, y) => k in puts <==> x == r && y == d
    case Z(x, y) => k in puts <==> x == r && y == d
    case T(x, t) => (k in puts <==> x == r && t in tags) && (k in puts ==> puts[k] == TagV(d, Secs(now)))
    case G(x, y, t) => k in puts <==> x == r && y == d && t in tags
    case _ => true
  }

  lemma PushPutsAt(cfg: Config, s: Data, r: RepoId, d: Digest, tags: set<Tag>, now: Millis, k: Key)
    ensures PushPuts(PushEffect(cfg, s, r, d, tags, now).puts, r, d, tags, now, k)
    ensures TagKey(k) && k in PushEffect(cfg, s, r, d, tags, now).dels ==> k.repo == r
  {
    PushAt(cfg, s, r, d, tags, now, k);
    BlobPutsAt(s, r, d, LinkedBlobs(s, r, cfg.doc(d).blobs), now, k);
    ChildPutsAt(r, d, Elements(cfg.doc(d).children), k);
    DocumentPutsAt(cfg, r, d, now, k);
    TagSetPutsAt(cfg, r, tags, d, now, k);
    TagSetDelsAt(cfg, s, r, tags, d, k);
  }

  lemma PushAfterWipe(s: Data, e: Effect, r: RepoId, d: Digest, tags: set<Tag>, now: Millis)
    requires forall k: Key :: PushPuts(e.puts, r, d, tags, now, k)
    ensures IndexOf(Perform(FinishSweep(s, r), e), r)
  {
    var w := Perform(FinishSweep(s, r), e);
    forall t: Tag ensures TagAt(w, r, t) == if t in tags then Some(d) else None {
      assert PushPuts(e.puts, r, d, tags, now, T(r, t));
      WipedAt(s, r, e, T(r, t));
    }
    forall y: Digest, t: Tag ensures G(r, y, t) in w <==> TagAt(w, r, t) == Some(y) {
      assert PushPuts(e.puts, r, d, tags, now, G(r, y, t));
      WipedAt(s, r, e, G(r, y, t));
    }
    forall y: Digest ensures (M(r, y) in w <==> y == d) && (Z(r, y) in w <==> y == d) {
      assert PushPuts(e.puts, r, d, tags, now, M(r, y)) && PushPuts(e.puts, r, d, tags, now, Z(r, y));
      WipedAt(s, r, e, M(r, y));
      WipedAt(s, r, e, Z(r, y));
    }
    forall t: Tag | T(r, t) in w && w[T(r, t)].TagV? ensures M(r, w[T(r, t)].target) in w {
      assert TagAt(w, r, t) == Some(w[T(r, t)].target);
    }
  }

  lemma PushIsSound(cfg: Config, s: Data, r: RepoId, d: Digest, tags: set<Tag>, now: Millis)
    requires TagIndex(s)
    ensures Sound(s, Pending(r, PushEffect(cfg, s, r, d, tags, now)))
  {
    var e := PushEffect(cfg, s, r, d, tags, now);
    forall k: Key ensures PushPuts(e.puts, r, d, tags, now, k) && (TagKey(k) && k in e.dels ==> k.repo == r) {
      PushPutsAt(cfg, s, r, d, tags, now, k);
    }
    PushIsConfined(e, r, d, tags, now);
    PushAfterWipe(s, e, r, d, tags, now);
    PushIsPushed(cfg, s, r, d, tags, now);
    PushedManifests(cfg, s, Perform(s, e), r, d, tags, now);
    MovedTagIndex(s, Perform(s, e), r, tags, d, now);
    IndexByRepo(Perform(s, e));
  }

  lemma PushIsConfined(e: Effect, r: RepoId, d: Digest, tags: set<Tag>, now: Millis)
    requires forall k: Key :: PushPuts(e.puts, r, d, tags, now, k) && (TagKey(k) && k in e.dels ==> k.repo == r)
    ensures Confined(e, r)
  {
    forall k: Key | TagKey(k) && (k in e.dels || k in e.puts) ensures k.repo == r {
      assert PushPuts(e.puts, r, d, tags, now, k);
    }
  }

  /** A batch that only takes tags and the manifest away, in the index ranges. */
  ghost predicate Drops(s: Data, e: Effect, r: RepoId, d: Digest, tags: set<Tag>, gone: bool) {
    && (forall k: Key :: TagKey(k) ==> k !in e.puts)
    && (forall k: Key :: TagKey(k) && k in s ==>
          (k in e.dels <==> k.repo == r && match k
            case T(_, t) => t in tags
            case G(_, y, t) => y == d && t in tags
            case M(_, y) => gone && y == d
            case Z(_, y) => gone && y == d))
    && (forall k: Key :: TagKey(k) && k in e.dels ==> k.repo == r)
    && (forall t: Tag :: t in tags ==> TagAt(s, r, t) == Some(d))
    && (gone ==> forall t: Tag :: TagAt(s, r, t) == Some(d) ==> t in tags)
  }

  lemma DropIsSound(s: Data, e: Effect, r: RepoId, d: Digest, tags: set<Tag>, gone: bool)
    requires TagIndex(s) && Drops(s, e, r, d, tags, gone)
    ensures Sound(s, Pending(r, e))
  {
    DropAfterWipe(s, e, r);
    DropInPlace(s, e, r, d, tags, gone);
  }

  lemma DropAfterWipe(s: Data, e: Effect, r: RepoId)
    requires forall k: Key :: TagKey(k) ==> k !in e.puts
    ensures IndexOf(Perform(FinishSweep(s, r), e), r)
  {
    var w := Perform(FinishSweep(s, r), e);
    forall k: Key | TagKey(k) && k.repo == r ensures k !in w { WipedAt(s, r, e, k); }
    forall t: Tag ensures TagAt(w, r, t) == None { assert T(r, t) !in w; }
    forall y: Digest, t: Tag ensures G(r, y, t) !in w {}
  }

  lemma DropInPlace(s: Data, e: Effect, r: RepoId, d: Digest, tags: set<Tag>, gone: bool)
    requires TagIndex(s) && Drops(s, e, r, d, tags, gone)
    ensures IndexOf(Perform(s, e), r)
  {
    var s' := Perform(s, e);
    forall t: Tag ensures TagAt(s', r, t) == if t in tags then None else TagAt(s, r, t) { PerformAt(s, e, T(r, t)); }
    forall y: Digest, t: Tag ensures G(r, y, t) in s' <==> TagAt(s', r, t) == Some(y) { PerformAt(s, e, G(r, y, t)); }
    forall y: Digest ensures (M(r, y) in s' <==> M(r, y) in s && !(gone && y == d)) && (M(r, y) in s' <==> Z(r, y) in s') {
      PerformAt(s, e, M(r, y));
      PerformAt(s, e, Z(r, y));
    }
    forall t: Tag | T(r, t) in s' && s'[T(r, t)].TagV? ensures M(r, s'[T(r, t)].target) in s' {
      assert TagAt(s', r, t) == Some(s'[T(r, t)].target);
      assert TagAt(s, r, t) == Some(s'[T(r, t)].target);
    }
  }

  lemma UntagDrops(cfg: Config, s: Data, r: RepoId, t: Tag, d: Digest, now: Millis)
    requires TagAt(s, r, t) == Some(d)
    ensures Drops(s, Effect(DeleteTagDels(cfg, r, t, d), DeleteTagPuts(r, t, d, now)), r, d, {t}, false)
  {}

  lemma DeleteDrops(cfg: Config, s: Data, r: RepoId, d: Digest, now: Millis)
    requires TagIndex(s) && M(r, d) in s && s[M(r, d)].ManifestV?
    ensures var tags := TagsPointingAt(s, r, d);
      Drops(s, Effect(DeleteManifestDels(cfg, s, r, d, s[M(r, d)], tags), TagEvents(r, tags, d, now, Deleted)), r, d, tags, true)
  {
    var tags := TagsPointingAt(s, r, d);
    forall k: Key | TagKey(k)
      ensures k !in TagEvents(r, tags, d, now, Deleted)
      ensures k in DeleteManifestDels(cfg, s, r, d, s[M(r, d)], tags) <==>
        (k == M(r, d) || k == Z(r, d) || (k.T? && k.repo == r && k.tag in tags) || (k.G? && k.repo == r && k.digest == d && k.tag in tags))
    {
      TagEventsAt(r, tags, d, now, Deleted, k);
      DeleteManifestDelsAt(cfg, s, r, d, s[M(r, d)], tags, k);
      TagDropsAt(cfg, r, tags, d, k);
    }
    forall t: Tag ensures t in tags <==> TagAt(s, r, t) == Some(d) { TagsPointing(s, r, d, t); }
  }

  lemma DeleteIsSound(cfg: Config, s: Data, r: RepoId, d: Digest, now: Millis)
    requires TagIndex(s) && DeleteManifest(cfg, s, r, d, now).Ok?
    ensures Sound(s, Pending(r, DeleteManifest(cfg, s, r, d, now).value))
  {
    DeleteDrops(cfg, s, r, d, now);
    DropIsSound(s, DeleteManifest(cfg, s, r, d, now).value, r, d, TagsPointingAt(s, r, d), true);
  }

  lemma PlanIsSound(cfg: Config, s: Data, r: RepoId, m: Mutation)
    requires TagIndex(s) && PlanOf(cfg, s, r, m).Some?
    ensures Sound(s, Pending(r, PlanOf(cfg, s, r, m).value))
  {
    match m {
      case Pushing(d, claimed, tags, now) => PushIsSound(cfg, s, r, d, Elements(tags), now);
      case Untagging(t, now) =>
        var d := TagAt(s, r, t).value;
        UntagDrops(cfg, s, r, t, d, now);
        DropIsSound(s, Effect(DeleteTagDels(cfg, r, t, d), DeleteTagPuts(r, t, d, now)), r, d, {t}, false);
      case Deleting(d, now) => DeleteIsSound(cfg, s, r, d, now);
      case Purging(d, pushedBefore, now) => DeleteIsSound(cfg, s, r, d, now);
    }
  }

  // --- every interleaving -----------------------------------------------

  lemma ApplyKeeps(s: Data, p: Pending)
    requires TagIndex(s) && Sound(s, p)
    ensures TagIndex(Perform(s, p.batch))
    ensures forall r: RepoId :: r != p.repo ==> Alike(s, Perform(s, p.batch), r)
  {
    var s' := Perform(s, p.batch);
    forall r: RepoId | r != p.repo ensures Alike(s, s', r) {
      forall k: Key | TagKey(k) && k.repo == r ensures SameKey(s, s', k) { PerformAt(s, p.batch, k); }
    }
    IndexByRepo(s);
    forall r: RepoId ensures IndexOf(s', r) {
      if r != p.repo { IndexIsLocal(s, s', r); }
    }
    IndexByRepo(s');
  }

  lemma WipeKeeps(s: Data, id: RepoId)
    requires TagIndex(s)
    ensures TagIndex(FinishSweep(s, id))
    ensures forall r: RepoId :: r != id ==> Alike(s, FinishSweep(s, id), r)
  {
    var w := FinishSweep(s, id);
    forall x: RepoId, t: Tag ensures T(x, t) in w <==> T(x, t) in s && x != id {}
    forall x: RepoId, d: Digest ensures (M(x, d) in w <==> M(x, d) in s && x != id) && (Z(x, d) in w <==> Z(x, d) in s && x != id) {}
    forall x: RepoId, d: Digest, t: Tag ensures G(x, d, t) in w <==> G(x, d, t) in s && x != id {}
  }

  /** One lock holder per id: a shard's holder works under an id of a name that hashes there. */
  lemma OneHolder(shard: Name -> nat, s: Locked, a: nat, b: nat)
    requires LockInv(shard, s) && a in s.held && b in s.held && a != b
    ensures s.held[a].repo != s.held[b].repo
  {}

  /** Every step - lock and plan, apply and unlock, unlocked wipe - keeps the index. */
  lemma ActKeepsIndex(cfg: Config, shard: Name -> nat, s: Locked, a: Action, s': Locked)
    requires LockInv(shard, s) && Act(cfg, shard, s, a, s')
    ensures LockInv(shard, s')
  {
    match a {
      case Issue(id, name) =>
      case Plan(name, id, m) => PlanIsSound(cfg, s.store, id, m);
      case Apply(n) =>
        ApplyKeeps(s.store, s.held[n]);
        forall b | b in s'.held ensures Sound(s'.store, s'.held[b]) {
          OneHolder(shard, s, n, b);
          SoundIsLocal(s.store, s'.store, s.held[b]);
        }
      case Wipe(id) =>
        WipeKeeps(s.store, id);
        forall b | b in s'.held ensures Sound(s'.store, s'.held[b]) {
          if s.held[b].repo == id { SoundAfterWipe(s.store, s.held[b]); } else { SoundIsLocal(s.store, s'.store, s.held[b]); }
        }
      case Elsewhere(store) =>
        ElsewhereKeeps(s.store, store);
        forall b | b in s'.held ensures Sound(s'.store, s'.held[b]) { SoundIsLocal(s.store, s'.store, s.held[b]); }
    }
  }

  lemma ElsewhereKeeps(s: Data, s': Data)
    requires TagIndex(s) && forall k: Key :: TagKey(k) ==> SameKey(s, s', k)
    ensures TagIndex(s') && forall r: RepoId :: Alike(s, s', r)
  {
    IndexByRepo(s);
    forall r: RepoId ensures Alike(s, s', r) && IndexOf(s', r) { IndexIsLocal(s, s', r); }
    IndexByRepo(s');
  }

  ghost predicate LockedRun(cfg: Config, shard: Name -> nat, states: seq<Locked>, actions: seq<Action>) {
    && |states| == |actions| + 1 && states[0] == Locked(map[], map[], map[])
    && forall i :: 0 <= i < |actions| ==> ActAt(cfg, shard, states, actions, i)
  }

  ghost predicate ActAt(cfg: Config, shard: Name -> nat, states: seq<Locked>, actions: seq<Action>, i: nat)
    requires |states| == |actions| + 1 && i < |actions|
  {
    Act(cfg, shard, states[i], actions[i], states[i + 1])
  }

  /**
   In every interleaving: `G(d, tag)` iff `T(tag) = d`, `M` iff `Z`, and every tag's target is a
   stored manifest.
   */
  lemma {:induction false} IndexSurvivesInterleaving(cfg: Config, shard: Name -> nat, states: seq<Locked>, actions: seq<Action>, i: nat)
    requires LockedRun(cfg, shard, states, actions) && i < |states|
    ensures LockInv(shard, states[i]) && TagIndex(states[i].store)
  {
    if i > 0 {
      IndexSurvivesInterleaving(cfg, shard, states, actions, i - 1);
      assert ActAt(cfg, shard, states, actions, i - 1);
      ActKeepsIndex(cfg, shard, states[i - 1], actions[i - 1], states[i]);
    }
  }

  // --- what the lock and the whole batch are for ------------------------

  /**
   Two pushes to one tag that both plan before either applies: the first one's reverse edge is
   stranded, unless the tag was already there.
   */
  lemma UnlockedPushesStrandAnEdge(cfg: Config, s: Data, r: RepoId, t: Tag, d1: Digest, d2: Digest, now1: Millis, now2: Millis)
    requires TagIndex(s) && d1 != d2
    ensures var s1 := Perform(s, PushEffect(cfg, s, r, d1, {t}, now1));
      var s2 := Perform(s1, PushEffect(cfg, s, r, d2, {t}, now2));
      && TagAt(s2, r, t) == Some(d2)
      && (G(r, d1, t) in s2 <==> TagAt(s, r, t) != Some(d1))
  {
    var e1, e2 := PushEffect(cfg, s, r, d1, {t}, now1), PushEffect(cfg, s, r, d2, {t}, now2);
    var s1 := Perform(s, e1);
    PushPutsAt(cfg, s, r, d1, {t}, now1, G(r, d1, t));
    PushPutsAt(cfg, s, r, d2, {t}, now2, T(r, t));
    PushPutsAt(cfg, s, r, d2, {t}, now2, G(r, d1, t));
    PushAt(cfg, s, r, d2, {t}, now2, G(r, d1, t));
    TagSetDelsAt(cfg, s, r, {t}, d2, G(r, d1, t));
    PerformAt(s, e1, G(r, d1, t));
    PerformAt(s1, e2, G(r, d1, t));
    PerformAt(s1, e2, T(r, t));
  }

  /**
   Repointing a tag without pushing the manifest is not safe against the unlocked wipe: it writes
   a tag whose manifest may be gone by then. The server only repoints by pushing.
   */
  lemma RetagAfterWipeDangles(cfg: Config, s: Data, r: RepoId, t: Tag, d: Digest, now: Millis)
    requires SetTag(cfg, s, r, t, d, now).Ok?
    ensures var w := Perform(FinishSweep(s, r), SetTag(cfg, s, r, t, d, now).value);
      TagAt(w, r, t) == Some(d) && M(r, d) !in w && !TagIndex(w)
  {
    var e := SetTag(cfg, s, r, t, d, now).value;
    SetTagPutsAt(cfg, r, t, d, now, T(r, t));
    SetTagPutsAt(cfg, r, t, d, now, M(r, d));
    WipedAt(s, r, e, T(r, t));
    WipedAt(s, r, e, M(r, d));
  }

  /** A repoint planned on a sound store, exactly: applied to it as it was, or after its repository's wipe. */
  lemma RepointKeepsIndexIff(cfg: Config, s: Data, r: RepoId, t: Tag, d: Digest, now: Millis, wiped: bool)
    requires TagIndex(s) && SetTag(cfg, s, r, t, d, now).Ok?
    ensures TagIndex(Perform(if wiped then FinishSweep(s, r) else s, SetTag(cfg, s, r, t, d, now).value)) <==> !wiped
  {
    if wiped { RetagAfterWipeDangles(cfg, s, r, t, d, now); } else { RetagInPlace(cfg, s, r, t, d, now); }
  }

  lemma RetagInPlace(cfg: Config, s: Data, r: RepoId, t: Tag, d: Digest, now: Millis)
    requires TagIndex(s) && SetTag(cfg, s, r, t, d, now).Ok?
    ensures var sound := TagIndex(Perform(s, SetTag(cfg, s, r, t, d, now).value)); sound
  {
    var s' := Perform(s, SetTag(cfg, s, r, t, d, now).value);
    forall k: Key ensures RetagEntry(cfg, s, s', r, t, d, now, k) { RetagTouches(cfg, s, r, t, d, now, k); }
    RetagMoves(cfg, s, s', r, t, d, now);
    forall x: RepoId, y: Digest ensures SameKey(s, s', M(x, y)) && SameKey(s, s', Z(x, y)) {
      assert RetagEntry(cfg, s, s', r, t, d, now, M(x, y)) && RetagEntry(cfg, s, s', r, t, d, now, Z(x, y));
    }
    MovedTagIndex(s, s', r, {t}, d, now);
  }
}
