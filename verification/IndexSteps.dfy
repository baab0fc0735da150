/** Each index-changing batch, read back key range by key range, keeps the invariants. */
module IndexSteps {
  import opened Results
  import opened Paging
  import opened Keys
  import opened Store
  import opened Interner
  import opened Registry
  import opened Invariants

  // --- tags being set ---------------------------------------------------

  ghost predicate NamesSubject(cfg: Config, tags: set<Tag>, sub: Digest) {
    exists t: Tag :: t in tags && cfg.subjectOf(t) == Some(sub)
  }

  /** Some tag being moved used to make `f` a referrer of `sub`. */
  ghost predicate Displaced(cfg: Config, s: Data, r: RepoId, tags: set<Tag>, d: Digest, sub: Digest, f: Digest) {
    exists t: Tag :: t in tags && cfg.subjectOf(t) == Some(sub) && TagAt(s, r, t) == Some(f) && f != d
  }

  /** `T`, `G`, `H` and `J` after `tags` of one repository are pointed at `d`. */
  ghost predicate TagsMoved(s: Data, s': Data, r: RepoId, tags: set<Tag>, d: Digest, now: Millis) {
    && (forall x: RepoId, t: Tag ::
          if x == r && t in tags then T(x, t) in s' && s'[T(x, t)] == TagV(d, Secs(now)) else SameKey(s, s', T(x, t)))
    && (forall x: RepoId, y: Digest, t: Tag ::
          G(x, y, t) in s' <==>
          if x == r && t in tags then y == d || (G(x, y, t) in s && TagAt(s, r, t) != Some(y)) else G(x, y, t) in s)
    && (forall x: RepoId, t: Tag, at: Millis, y: Digest ::
          if x == r && t in tags && at == now && y == d
          then H(x, t, at, y) in s' && s'[H(x, t, at, y)] == EventV(Created)
          else SameKey(s, s', H(x, t, at, y)))
    && (forall x: RepoId, t: Tag, at: Millis, y: Digest ::
          if x == r && t in tags && at == now && y == d
          then J(x, y, at, t) in s' && s'[J(x, y, at, t)] == EventV(Created)
          else SameKey(s, s', J(x, y, at, t)))
  }

  /** `F` after the same batch; `own` is the subject the pushed document itself names. */
  ghost predicate ReferrersMoved(cfg: Config, s: Data, s': Data, r: RepoId, tags: set<Tag>, d: Digest, own: Option<Digest>) {
    forall x: RepoId, sub: Digest, f: Digest ::
      F(x, sub, f) in s' <==>
        || (x == r && f == d && (own == Some(sub) || NamesSubject(cfg, tags, sub)))
        || (F(x, sub, f) in s && !(x == r && Displaced(cfg, s, r, tags, d, sub, f)))
  }

  lemma MovedTagIndex(s: Data, s': Data, r: RepoId, tags: set<Tag>, d: Digest, now: Millis)
    requires TagIndex(s) && TagsMoved(s, s', r, tags, d, now)
    requires forall x: RepoId, y: Digest :: M(x, y) in s' <==> M(x, y) in s || (x == r && y == d && M(r, d) in s')
    requires forall x: RepoId, y: Digest :: M(x, y) in s' <==> Z(x, y) in s'
    requires tags != {} ==> M(r, d) in s'
    ensures TagIndex(s')
  {
    forall x: RepoId, t: Tag
      ensures TagAt(s', x, t) == if x == r && t in tags then Some(d) else TagAt(s, x, t)
    { assert (x == r && t in tags) || SameKey(s, s', T(x, t)); }
    forall x: RepoId, t: Tag | T(x, t) in s' && s'[T(x, t)].TagV? ensures M(x, s'[T(x, t)].target) in s' {
      assert TagAt(s', x, t) == Some(s'[T(x, t)].target);
    }
  }

  lemma MovedHistory(s: Data, s': Data, r: RepoId, tags: set<Tag>, d: Digest, now: Millis)
    requires HistoryPaired(s) && TagsMoved(s, s', r, tags, d, now)
    ensures HistoryPaired(s')
  {
    forall x: RepoId, t: Tag, at: Millis, y: Digest
      ensures (H(x, t, at, y) in s' <==> J(x, y, at, t) in s') &&
        (H(x, t, at, y) in s' ==> s'[H(x, t, at, y)] == s'[J(x, y, at, t)] && s'[H(x, t, at, y)].EventV?)
    {
      if !(x == r && t in tags && at == now && y == d) {
        assert SameKey(s, s', H(x, t, at, y)) && SameKey(s, s', J(x, y, at, t));
      }
    }
  }

  /** A referrer edge that survives a move is still justified, because its tag did not move. */
  lemma MovedReferrers(cfg: Config, s: Data, s': Data, r: RepoId, tags: set<Tag>, d: Digest, now: Millis, own: Option<Digest>)
    requires EdgesSound(cfg, s) && TagsMoved(s, s', r, tags, d, now) && ReferrersMoved(cfg, s, s', r, tags, d, own)
    requires own == None || own == cfg.doc(d).subject
    requires forall x: RepoId, y: Digest :: M(x, y) in s ==> M(x, y) in s'
    requires own.Some? || tags != {} ==> M(r, d) in s'
    ensures forall x: RepoId, sub: Digest, f: Digest :: F(x, sub, f) in s' ==>
              M(x, f) in s' && (cfg.doc(f).subject == Some(sub) || NamedByTag(cfg, s', x, sub, f))
  {
    forall x: RepoId, sub: Digest, f: Digest | F(x, sub, f) in s'
      ensures M(x, f) in s' && (cfg.doc(f).subject == Some(sub) || NamedByTag(cfg, s', x, sub, f))
    {
      if x == r && f == d && NamesSubject(cfg, tags, sub) {
        var t: Tag :| t in tags && cfg.subjectOf(t) == Some(sub);
        assert TagAt(s', r, t) == Some(d);
      } else if x == r && f == d && own == Some(sub) {
      } else if cfg.doc(f).subject != Some(sub) {
        var t: Tag :| TagAt(s, x, t) == Some(f) && cfg.subjectOf(t) == Some(sub);
        assert x == r && t in tags && f != d ==> Displaced(cfg, s, r, tags, d, sub, f);
        assert (x == r && t in tags) || SameKey(s, s', T(x, t));
        assert TagAt(s', x, t) == Some(f);
      }
    }
  }

  // --- push -------------------------------------------------------------

  /** The graph ranges after a push: the manifest, its body, and its edges. */
  ghost predicate ManifestStored(cfg: Config, s: Data, s': Data, r: RepoId, d: Digest, linked: set<Digest>, now: Millis) {
    && (forall x: RepoId, y: Digest ::
          if x == r && y == d then M(x, y) in s' && s'[M(x, y)] == RecordOf(cfg, d, now) else SameKey(s, s', M(x, y)))
    && (forall x: RepoId, y: Digest :: Z(x, y) in s' <==> Z(x, y) in s || (x == r && y == d))
    && (forall b: Digest, x: RepoId, m: Digest :: R(b, x, m) in s' <==> R(b, x, m) in s || (x == r && m == d && b in linked))
    && (forall x: RepoId, c: Digest, p: Digest ::
          S(x, c, p) in s' <==> S(x, c, p) in s || (x == r && p == d && c in cfg.doc(d).children))
  }

  /** The blob ranges after a push: linked blobs lose their marks and gain a membership. */
  ghost predicate BlobsLinked(s: Data, s': Data, r: RepoId, linked: set<Digest>, now: Millis) {
    && (forall b: Digest :: if b in linked then C(b) !in s' else SameKey(s, s', C(b)))
    && (forall x: RepoId, b: Digest ::
          if x == r && b in linked && P(x, b) !in s then P(x, b) in s' && s'[P(x, b)] == MemberV(SizeOf(s, b), Secs(now))
          else SameKey(s, s', P(x, b)))
    && (forall k: Key :: k.B? || k.N? || k.I? || k.Dead? ==> SameKey(s, s', k))
    && (forall k: Key, x: RepoId :: Mentions(k, x) && x != r ==> SameKey(s, s', k))
  }

  ghost predicate Pushed(cfg: Config, s: Data, s': Data, r: RepoId, d: Digest, tags: set<Tag>, now: Millis) {
    && ManifestStored(cfg, s, s', r, d, LinkedBlobs(s, r, cfg.doc(d).blobs), now)
    && BlobsLinked(s, s', r, LinkedBlobs(s, r, cfg.doc(d).blobs), now)
    && TagsMoved(s, s', r, tags, d, now)
    && ReferrersMoved(cfg, s, s', r, tags, d, cfg.doc(d).subject)
  }

  lemma PerformAt(s: Data, e: Effect, k: Key)
    ensures k in Perform(s, e) <==> k in e.puts || (k in s && k !in e.dels)
    ensures k in Perform(s, e) ==> Perform(s, e)[k] == if k in e.puts then e.puts[k] else s[k]
  {}

  lemma BlobPutsAt(s: Data, r: RepoId, d: Digest, linked: set<Digest>, now: Millis, k: Key)
    ensures k in BlobPuts(s, r, d, linked, now) <==>
        || (k.P? && k.repo == r && k.digest in linked && k !in s)
        || (k.R? && k.repo == r && k.manifest == d && k.blob in linked)
    ensures k in BlobPuts(s, r, d, linked, now) && k.P? ==> BlobPuts(s, r, d, linked, now)[k] == MemberV(SizeOf(s, k.digest), Secs(now))
  {}

  lemma ChildPutsAt(r: RepoId, d: Digest, children: set<Digest>, k: Key)
    ensures k in ChildPuts(r, d, children) <==> k.S? && k.repo == r && k.parent == d && k.child in children
  {}

  lemma DocumentPutsAt(cfg: Config, r: RepoId, d: Digest, now: Millis, k: Key)
    ensures k in DocumentPuts(cfg, r, d, now) <==>
        || k == M(r, d) || k == Z(r, d)
        || (k.F? && k.repo == r && k.referrer == d && cfg.doc(d).subject == Some(k.subject))
    ensures DocumentPuts(cfg, r, d, now)[M(r, d)] == RecordOf(cfg, d, now)
  {}

  lemma TagEventsAt(r: RepoId, tags: set<Tag>, d: Digest, now: Millis, kind: EventKind, k: Key)
    ensures k in TagEvents(r, tags, d, now, kind) <==>
        || (k.H? && k.repo == r && k.tag in tags && k.at == now && k.digest == d)
        || (k.J? && k.repo == r && k.tag in tags && k.at == now && k.digest == d)
    ensures k in TagEvents(r, tags, d, now, kind) ==> TagEvents(r, tags, d, now, kind)[k] == EventV(kind)
  {}

  lemma TagRecordsAt(cfg: Config, r: RepoId, tags: set<Tag>, d: Digest, now: Millis, k: Key)
    ensures k in TagRecords(r, tags, d, now) <==> k.T? && k.repo == r && k.tag in tags
    ensures k in TagRecords(r, tags, d, now) ==> TagRecords(r, tags, d, now)[k] == TagV(d, Secs(now))
    ensures k in TagEdges(r, tags, d) <==> k.G? && k.repo == r && k.digest == d && k.tag in tags
    ensures k in TagEdges(r, tags, d) ==> TagEdges(r, tags, d)[k] == EdgeV
    ensures k in TagReferrers(cfg, r, tags, d) ==> TagReferrers(cfg, r, tags, d)[k] == ReferrerV
    ensures k in TagReferrers(cfg, r, tags, d) <==> k.F? && k.repo == r && k.referrer == d && k.subject in ArtifactSubjects(cfg, tags)
  {}

  /** The keys setting `tags` writes, and what it writes there. */
  ghost predicate Written(cfg: Config, r: RepoId, tags: set<Tag>, d: Digest, now: Millis, k: Key) {
    match k
    case T(x, t) => x == r && t in tags
    case G(x, y, t) => x == r && y == d && t in tags
    case H(x, t, at, y) => x == r && t in tags && at == now && y == d
    case J(x, y, at, t) => x == r && t in tags && at == now && y == d
    case F(x, sub, f) => x == r && f == d && NamesSubject(cfg, tags, sub)
    case _ => false
  }

  function WrittenValue(d: Digest, now: Millis, k: Key): Val {
    match k
    case T(_, _) => TagV(d, Secs(now))
    case H(_, _, _, _) => EventV(Created)
    case J(_, _, _, _) => EventV(Created)
    case F(_, _, _) => ReferrerV
    case _ => EdgeV
  }

  lemma TagSetPutsAt(cfg: Config, r: RepoId, tags: set<Tag>, d: Digest, now: Millis, k: Key)
    ensures k in TagSetPuts(cfg, r, tags, d, now) <==> Written(cfg, r, tags, d, now, k)
    ensures k in TagSetPuts(cfg, r, tags, d, now) ==> TagSetPuts(cfg, r, tags, d, now)[k] == WrittenValue(d, now, k)
  {
    TagRecordsAt(cfg, r, tags, d, now, k);
    TagEventsAt(r, tags, d, now, Created, k);
    if k.F? { SubjectsAt(cfg, tags, k.subject); }
    WrittenParts(cfg, r, tags, d, now, k, TagRecords(r, tags, d, now), TagEdges(r, tags, d), TagEvents(r, tags, d, now, Created), TagReferrers(cfg, r, tags, d));
  }

  lemma WrittenParts(cfg: Config, r: RepoId, tags: set<Tag>, d: Digest, now: Millis, k: Key, a: Data, b: Data, c: Data, e: Data)
    requires k in a <==> k.T? && k.repo == r && k.tag in tags
    requires k in b <==> k.G? && k.repo == r && k.digest == d && k.tag in tags
    requires k in c <==> (k.H? || k.J?) && k.repo == r && k.tag in tags && k.at == now && k.digest == d
    requires k in e <==> k.F? && k.repo == r && k.referrer == d && NamesSubject(cfg, tags, k.subject)
    requires (k in a ==> a[k] == TagV(d, Secs(now))) && (k in b ==> b[k] == EdgeV)
    requires (k in c ==> c[k] == EventV(Created)) && (k in e ==> e[k] == ReferrerV)
    ensures k in a + b + c + e <==> Written(cfg, r, tags, d, now, k)
    ensures k in a + b + c + e ==> (a + b + c + e)[k] == WrittenValue(d, now, k)
  {}

  lemma SubjectsAt(cfg: Config, tags: set<Tag>, sub: Digest)
    ensures sub in ArtifactSubjects(cfg, tags) <==> NamesSubject(cfg, tags, sub)
  {
    if NamesSubject(cfg, tags, sub) {
      var t: Tag :| t in tags && cfg.subjectOf(t) == Some(sub);
      assert cfg.subjectOf(t).value in ArtifactSubjects(cfg, tags);
    }
  }

  lemma TagSetDelsAt(cfg: Config, s: Data, r: RepoId, tags: set<Tag>, d: Digest, k: Key)
    ensures k in TagSetDels(cfg, s, r, tags, d) <==>
        || (k.G? && k.repo == r && k.tag in tags && TagAt(s, r, k.tag) == Some(k.digest) && k.digest != d)
        || (k.F? && k.repo == r && Displaced(cfg, s, r, tags, d, k.subject, k.referrer))
  {
    if k in TagSetDels(cfg, s, r, tags, d) {
      var t: Tag :| t in tags && k in SetTagDels(cfg, s, r, t, d);
    }
    if k.G? && k.repo == r && k.tag in tags && TagAt(s, r, k.tag) == Some(k.digest) && k.digest != d {
      assert k in SetTagDels(cfg, s, r, k.tag, d);
    }
    if k.F? && k.repo == r && Displaced(cfg, s, r, tags, d, k.subject, k.referrer) {
      var t: Tag :| t in tags && cfg.subjectOf(t) == Some(k.subject) && TagAt(s, r, t) == Some(k.referrer) && k.referrer != d;
      assert k in SetTagDels(cfg, s, r, t, d);
    }
  }

  lemma FourMaps(a: Data, b: Data, c: Data, e: Data, k: Key)
    ensures k in a + b + c + e <==> k in a || k in b || k in c || k in e
  {}

  /** Which keys a push writes. */
  lemma PushPutsWhere(cfg: Config, s: Data, r: RepoId, d: Digest, tags: set<Tag>, now: Millis, k: Key)
    ensures k in PushEffect(cfg, s, r, d, tags, now).puts <==>
      (|| (k.P? && k.repo == r && k.digest in LinkedBlobs(s, r, cfg.doc(d).blobs) && k !in s)
       || (k.R? && k.repo == r && k.manifest == d && k.blob in LinkedBlobs(s, r, cfg.doc(d).blobs))
       || (k.S? && k.repo == r && k.parent == d && k.child in Elements(cfg.doc(d).children))
       || k == M(r, d) || k == Z(r, d)
       || (k.F? && k.repo == r && k.referrer == d && cfg.doc(d).subject == Some(k.subject))
       || Written(cfg, r, tags, d, now, k))
  {
    BlobPutsAt(s, r, d, LinkedBlobs(s, r, cfg.doc(d).blobs), now, k);
    ChildPutsAt(r, d, Elements(cfg.doc(d).children), k);
    DocumentPutsAt(cfg, r, d, now, k);
    TagSetPutsAt(cfg, r, tags, d, now, k);
    FourMaps(BlobPuts(s, r, d, LinkedBlobs(s, r, cfg.doc(d).blobs), now), ChildPuts(r, d, Elements(cfg.doc(d).children)),
             DocumentPuts(cfg, r, d, now), TagSetPuts(cfg, r, tags, d, now), k);
  }

  /** Which keys a push writes and which it removes, one key at a time. */
  lemma PushAt(cfg: Config, s: Data, r: RepoId, d: Digest, tags: set<Tag>, now: Millis, k: Key)
    ensures var linked := LinkedBlobs(s, r, cfg.doc(d).blobs);
      var e := PushEffect(cfg, s, r, d, tags, now);
      && (k in e.puts <==>
            || k in BlobPuts(s, r, d, linked, now) || k in ChildPuts(r, d, Elements(cfg.doc(d).children))
            || k in DocumentPuts(cfg, r, d, now) || k in TagSetPuts(cfg, r, tags, d, now))
      && (k in e.puts ==> e.puts[k] == if k in TagSetPuts(cfg, r, tags, d, now) then TagSetPuts(cfg, r, tags, d, now)[k]
            else if k in DocumentPuts(cfg, r, d, now) then DocumentPuts(cfg, r, d, now)[k]
            else if k in ChildPuts(r, d, Elements(cfg.doc(d).children)) then ChildPuts(r, d, Elements(cfg.doc(d).children))[k]
            else BlobPuts(s, r, d, linked, now)[k])
      && (k in e.dels <==> (k.C? && k.digest in linked) || k in TagSetDels(cfg, s, r, tags, d))
  {}

  lemma PushTouches(cfg: Config, s: Data, r: RepoId, d: Digest, tags: set<Tag>, now: Millis, k: Key)
    ensures var e := PushEffect(cfg, s, r, d, tags, now);
      PushEntry(cfg, s, Perform(s, e), r, d, LinkedBlobs(s, r, cfg.doc(d).blobs), tags, now, k)
  {
    var linked := LinkedBlobs(s, r, cfg.doc(d).blobs);
    PushAt(cfg, s, r, d, tags, now, k);
    PerformAt(s, PushEffect(cfg, s, r, d, tags, now), k);
    BlobPutsAt(s, r, d, linked, now, k);
    ChildPutsAt(r, d, Elements(cfg.doc(d).children), k);
    DocumentPutsAt(cfg, r, d, now, k);
    TagSetPutsAt(cfg, r, tags, d, now, k);
    TagSetDelsAt(cfg, s, r, tags, d, k);
    if k.F? { SubjectsAt(cfg, tags, k.subject); }
  }

  /** What one key reads after a push. */
  ghost predicate PushEntry(cfg: Config, s: Data, s': Data, r: RepoId, d: Digest, linked: set<Digest>, tags: set<Tag>, now: Millis, k: Key) {
    match k
    case M(x, y) => if x == r && y == d then k in s' && s'[k] == RecordOf(cfg, d, now) else SameKey(s, s', k)
    case Z(x, y) => if x == r && y == d then k in s' else SameKey(s, s', k)
    case T(x, t) => if x == r && t in tags then k in s' && s'[k] == TagV(d, Secs(now)) else SameKey(s, s', k)
    case G(x, y, t) =>
      if x == r && t in tags then (k in s' <==> y == d || (k in s && TagAt(s, r, t) != Some(y))) else SameKey(s, s', k)
    case R(b, x, m) => if x == r && m == d && b in linked then k in s' else SameKey(s, s', k)
    case S(x, c, p) => if x == r && p == d && c in cfg.doc(d).children then k in s' else SameKey(s, s', k)
    case F(x, sub, f) =>
      if x == r then
        k in s' <==>
          || (f == d && (cfg.doc(d).subject == Some(sub) || NamesSubject(cfg, tags, sub)))
          || (k in s && !Displaced(cfg, s, r, tags, d, sub, f))
      else SameKey(s, s', k)
    case H(x, t, at, y) =>
      if x == r && t in tags && at == now && y == d then k in s' && s'[k] == EventV(Created) else SameKey(s, s', k)
    case J(x, y, at, t) =>
      if x == r && t in tags && at == now && y == d then k in s' && s'[k] == EventV(Created) else SameKey(s, s', k)
    case C(b) => if b in linked then k !in s' else SameKey(s, s', k)
    case P(x, b) =>
      if x == r && b in linked && k !in s then k in s' && s'[k] == MemberV(SizeOf(s, b), Secs(now)) else SameKey(s, s', k)
    case _ => SameKey(s, s', k)
  }

  lemma PushIsPushed(cfg: Config, s: Data, r: RepoId, d: Digest, tags: set<Tag>, now: Millis)
    ensures Pushed(cfg, s, Perform(s, PushEffect(cfg, s, r, d, tags, now)), r, d, tags, now)
  {
    var s' := Perform(s, PushEffect(cfg, s, r, d, tags, now));
    var linked := LinkedBlobs(s, r, cfg.doc(d).blobs);
    forall k: Key ensures PushEntry(cfg, s, s', r, d, linked, tags, now, k) { PushTouches(cfg, s, r, d, tags, now, k); }
    EntriesMakePush(cfg, s, s', r, d, linked, tags, now);
  }

  lemma EntriesMakePush(cfg: Config, s: Data, s': Data, r: RepoId, d: Digest, linked: set<Digest>, tags: set<Tag>, now: Millis)
    requires forall k: Key :: PushEntry(cfg, s, s', r, d, linked, tags, now, k)
    ensures ManifestStored(cfg, s, s', r, d, linked, now) && BlobsLinked(s, s', r, linked, now)
    ensures TagsMoved(s, s', r, tags, d, now)
    ensures ReferrersMoved(cfg, s, s', r, tags, d, cfg.doc(d).subject)
  {
    EntriesMakeTags(cfg, s, s', r, d, linked, tags, now);
    EntriesMakeReferrers(cfg, s, s', r, d, linked, tags, now);
    EntriesMakeDocument(cfg, s, s', r, d, linked, tags, now);
    EntriesMakeBlobs(cfg, s, s', r, d, linked, tags, now);
  }

  lemma EntriesMakeTags(cfg: Config, s: Data, s': Data, r: RepoId, d: Digest, linked: set<Digest>, tags: set<Tag>, now: Millis)
    requires forall k: Key :: PushEntry(cfg, s, s', r, d, linked, tags, now, k)
    ensures TagsMoved(s, s', r, tags, d, now)
  {
    forall x: RepoId, t: Tag ensures
      if x == r && t in tags then T(x, t) in s' && s'[T(x, t)] == TagV(d, Secs(now)) else SameKey(s, s', T(x, t))
    { assert PushEntry(cfg, s, s', r, d, linked, tags, now, T(x, t)); }
    forall x: RepoId, y: Digest, t: Tag ensures G(x, y, t) in s' <==>
      if x == r && t in tags then y == d || (G(x, y, t) in s && TagAt(s, r, t) != Some(y)) else G(x, y, t) in s
    { assert PushEntry(cfg, s, s', r, d, linked, tags, now, G(x, y, t)); }
    forall x: RepoId, t: Tag, at: Millis, y: Digest ensures
      if x == r && t in tags && at == now && y == d
      then H(x, t, at, y) in s' && s'[H(x, t, at, y)] == EventV(Created) else SameKey(s, s', H(x, t, at, y))
    { assert PushEntry(cfg, s, s', r, d, linked, tags, now, H(x, t, at, y)); }
    forall x: RepoId, t: Tag, at: Millis, y: Digest ensures
      if x == r && t in tags && at == now && y == d
      then J(x, y, at, t) in s' && s'[J(x, y, at, t)] == EventV(Created) else SameKey(s, s', J(x, y, at, t))
    { assert PushEntry(cfg, s, s', r, d, linked, tags, now, J(x, y, at, t)); }
  }

  lemma EntriesMakeReferrers(cfg: Config, s: Data, s': Data, r: RepoId, d: Digest, linked: set<Digest>, tags: set<Tag>, now: Millis)
    requires forall k: Key :: PushEntry(cfg, s, s', r, d, linked, tags, now, k)
    ensures ReferrersMoved(cfg, s, s', r, tags, d, cfg.doc(d).subject)
  {
    forall x: RepoId, sub: Digest, f: Digest ensures F(x, sub, f) in s' <==>
      || (x == r && f == d && (cfg.doc(d).subject == Some(sub) || NamesSubject(cfg, tags, sub)))
      || (F(x, sub, f) in s && !(x == r && Displaced(cfg, s, r, tags, d, sub, f)))
    { assert PushEntry(cfg, s, s', r, d, linked, tags, now, F(x, sub, f)); }
  }

  lemma EntriesMakeDocument(cfg: Config, s: Data, s': Data, r: RepoId, d: Digest, linked: set<Digest>, tags: set<Tag>, now: Millis)
    requires forall k: Key :: PushEntry(cfg, s, s', r, d, linked, tags, now, k)
    ensures ManifestStored(cfg, s, s', r, d, linked, now)
  {
    forall x: RepoId, y: Digest ensures
      && (if x == r && y == d then M(x, y) in s' && s'[M(x, y)] == RecordOf(cfg, d, now) else SameKey(s, s', M(x, y)))
      && (Z(x, y) in s' <==> Z(x, y) in s || (x == r && y == d))
    {
      assert PushEntry(cfg, s, s', r, d, linked, tags, now, M(x, y));
      assert PushEntry(cfg, s, s', r, d, linked, tags, now, Z(x, y));
    }
    forall b: Digest, x: RepoId, m: Digest ensures R(b, x, m) in s' <==> R(b, x, m) in s || (x == r && m == d && b in linked) {
      assert PushEntry(cfg, s, s', r, d, linked, tags, now, R(b, x, m));
    }
    forall x: RepoId, c: Digest, p: Digest
      ensures S(x, c, p) in s' <==> S(x, c, p) in s || (x == r && p == d && c in cfg.doc(d).children)
    { assert PushEntry(cfg, s, s', r, d, linked, tags, now, S(x, c, p)); }
  }

  lemma EntriesMakeBlobs(cfg: Config, s: Data, s': Data, r: RepoId, d: Digest, linked: set<Digest>, tags: set<Tag>, now: Millis)
    requires forall k: Key :: PushEntry(cfg, s, s', r, d, linked, tags, now, k)
    ensures BlobsLinked(s, s', r, linked, now)
  {
    forall b: Digest ensures if b in linked then C(b) !in s' else SameKey(s, s', C(b)) {
      assert PushEntry(cfg, s, s', r, d, linked, tags, now, C(b));
    }
    forall x: RepoId, b: Digest ensures
      if x == r && b in linked && P(x, b) !in s then P(x, b) in s' && s'[P(x, b)] == MemberV(SizeOf(s, b), Secs(now))
      else SameKey(s, s', P(x, b))
    { assert PushEntry(cfg, s, s', r, d, linked, tags, now, P(x, b)); }
    forall k: Key | k.B? || k.N? || k.I? || k.Dead? ensures SameKey(s, s', k) {
      assert PushEntry(cfg, s, s', r, d, linked, tags, now, k);
    }
    forall k: Key, x: RepoId | Mentions(k, x) && x != r ensures SameKey(s, s', k) {
      assert PushEntry(cfg, s, s', r, d, linked, tags, now, k);
    }
  }

  // --- a push keeps the invariants --------------------------------------

  lemma LinkedAreLayers(s: Data, r: RepoId, doc: Document, b: Digest)
    requires b in LinkedBlobs(s, r, doc.blobs)
    ensures b in Layers(doc)
  {
    var i :| 0 <= i < |doc.blobs| && doc.blobs[i].digest == b;
    assert Layers(doc)[i] == b;
  }

  lemma {:induction false} ChildrenAreStored(s: Data, r: RepoId, children: seq<Digest>, c: Digest)
    requires FirstMissingChild(s, r, children).None? && c in children
    ensures M(r, c) in s
  {
    if c != children[0] { ChildrenAreStored(s, r, children[1..], c); }
  }

  /** The manifest a push stores is the one its edges name, and the children it lists are stored. */
  lemma PushedEdges(cfg: Config, s: Data, s': Data, r: RepoId, d: Digest, tags: set<Tag>, now: Millis)
    requires EdgesSound(cfg, s) && Pushed(cfg, s, s', r, d, tags, now)
    requires FirstMissingChild(s, r, cfg.doc(d).children).None?
    ensures EdgesSound(cfg, s')
  {
    MovedReferrers(cfg, s, s', r, tags, d, now, cfg.doc(d).subject);
    assert forall x: RepoId, y: Digest :: M(x, y) in s ==> M(x, y) in s' by {
      forall x: RepoId, y: Digest | M(x, y) in s ensures M(x, y) in s' {
        if !(x == r && y == d) { assert SameKey(s, s', M(x, y)); }
      }
    }
    forall b: Digest, x: RepoId, m: Digest | R(b, x, m) in s' ensures M(x, m) in s' && b in Layers(cfg.doc(m)) {
      if R(b, x, m) !in s { LinkedAreLayers(s, r, cfg.doc(d), b); }
    }
    forall x: RepoId, c: Digest, p: Digest | S(x, c, p) in s' ensures M(x, c) in s' && M(x, p) in s' && c in cfg.doc(p).children {
      if S(x, c, p) !in s { ChildrenAreStored(s, r, cfg.doc(d).children, c); }
    }
  }

  lemma PushedRecords(cfg: Config, s: Data, s': Data, r: RepoId, d: Digest, tags: set<Tag>, now: Millis)
    requires WellTyped(cfg, s) && Pushed(cfg, s, s', r, d, tags, now)
    ensures WellTyped(cfg, s')
  {
    forall x: RepoId, t: Tag | T(x, t) in s' ensures s'[T(x, t)].TagV? {
      if !(x == r && t in tags) { assert SameKey(s, s', T(x, t)); }
    }
    forall b: Digest | C(b) in s' ensures s'[C(b)].MarkV? {
      assert SameKey(s, s', C(b));
    }
    var linked := LinkedBlobs(s, r, cfg.doc(d).blobs);
    forall x: RepoId, b: Digest | P(x, b) in s' ensures s'[P(x, b)].MemberV? {
      if !(x == r && b in linked && P(x, b) !in s) { assert SameKey(s, s', P(x, b)); }
    }
    forall x: RepoId, y: Digest | M(x, y) in s'
      ensures s'[M(x, y)].ManifestV? && s'[M(x, y)].layers == Layers(cfg.doc(y))
      ensures s'[M(x, y)].children == cfg.doc(y).children && s'[M(x, y)].subject == cfg.doc(y).subject
    {
      if !(x == r && y == d) { assert SameKey(s, s', M(x, y)); }
    }
  }

  lemma PushedMarks(cfg: Config, s: Data, s': Data, r: RepoId, d: Digest, tags: set<Tag>, now: Millis)
    requires MarksUnreferenced(s) && Pushed(cfg, s, s', r, d, tags, now)
    ensures MarksUnreferenced(s')
  {
    var linked := LinkedBlobs(s, r, cfg.doc(d).blobs);
    forall b: Digest, x: RepoId, m: Digest | R(b, x, m) in s' ensures C(b) !in s' {
      if b !in linked { assert SameKey(s, s', C(b)); }
    }
  }

  lemma NamesFrame(s: Data, s': Data)
    requires forall k: Key :: k.N? || k.I? || k.Dead? ==> SameKey(s, s', k)
    ensures NextId(s') == NextId(s) && (Bijection(s) ==> Bijection(s'))
    ensures NoOrphans(s) && (forall k: Key, r: RepoId :: k in s' && Mentions(k, r) ==> k in s || I(r) in s || Dead(r) in s) ==> NoOrphans(s')
  {
    forall n: Name ensures SameKey(s, s', N(n)) {}
    forall r: RepoId ensures SameKey(s, s', I(r)) && SameKey(s, s', Dead(r)) {}
  }

  lemma PushedInv(cfg: Config, s: Data, s': Data, r: RepoId, d: Digest, tags: set<Tag>, now: Millis)
    requires Inv(cfg, s) && I(r) in s && Pushed(cfg, s, s', r, d, tags, now)
    requires FirstMissingChild(s, r, cfg.doc(d).children).None?
    ensures Inv(cfg, s')
  {
    PushedEdges(cfg, s, s', r, d, tags, now);
    PushedRecords(cfg, s, s', r, d, tags, now);
    PushedMarks(cfg, s, s', r, d, tags, now);
    NamesFrame(s, s');
    MovedHistory(s, s', r, tags, d, now);
    PushedManifests(cfg, s, s', r, d, tags, now);
    MovedTagIndex(s, s', r, tags, d, now);
  }

  lemma PushedManifests(cfg: Config, s: Data, s': Data, r: RepoId, d: Digest, tags: set<Tag>, now: Millis)
    requires TagIndex(s) && Pushed(cfg, s, s', r, d, tags, now)
    ensures M(r, d) in s'
    ensures forall x: RepoId, y: Digest :: M(x, y) in s' <==> M(x, y) in s || (x == r && y == d && M(r, d) in s')
    ensures forall x: RepoId, y: Digest :: M(x, y) in s' <==> Z(x, y) in s'
  {
    forall x: RepoId, y: Digest ensures M(x, y) in s' <==> M(x, y) in s || (x == r && y == d) {
      if !(x == r && y == d) { assert SameKey(s, s', M(x, y)); }
    }
  }
}
