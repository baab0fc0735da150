/**
 The batches that take index entries away - a tag, a manifest with everything that names it - and
 the one that only repoints a tag. Each keeps the invariants.
 */
module Retractions {
  import opened Results
  import opened Keys
  import opened Store
  import opened Interner
  import opened Registry
  import opened Invariants
  import opened IndexSteps

  // --- repointing a stored manifest's tag -------------------------------

  lemma OneTagDels(cfg: Config, s: Data, r: RepoId, t: Tag, d: Digest)
    ensures SetTagDels(cfg, s, r, t, d) == TagSetDels(cfg, s, r, {t}, d)
  {
    assert forall k :: k in TagSetDels(cfg, s, r, {t}, d) <==> k in SetTagDels(cfg, s, r, t, d);
  }

  lemma SetTagPutsAt(cfg: Config, r: RepoId, t: Tag, d: Digest, now: Millis, k: Key)
    ensures k in SetTagPuts(cfg, r, t, d, now) <==>
        || k == T(r, t) || k == G(r, d, t) || k == H(r, t, now, d) || k == J(r, d, now, t)
        || (k.F? && k.repo == r && k.referrer == d && cfg.subjectOf(t) == Some(k.subject))
    ensures k.T? && k in SetTagPuts(cfg, r, t, d, now) ==> SetTagPuts(cfg, r, t, d, now)[k] == TagV(d, Secs(now))
    ensures (k.H? || k.J?) && k in SetTagPuts(cfg, r, t, d, now) ==> SetTagPuts(cfg, r, t, d, now)[k] == EventV(Created)
    ensures k.G? && k in SetTagPuts(cfg, r, t, d, now) ==> SetTagPuts(cfg, r, t, d, now)[k] == EdgeV
    ensures k.F? && k in SetTagPuts(cfg, r, t, d, now) ==> SetTagPuts(cfg, r, t, d, now)[k] == ReferrerV
  {}

  lemma OneTagNames(cfg: Config, t: Tag, sub: Digest)
    ensures NamesSubject(cfg, {t}, sub) <==> cfg.subjectOf(t) == Some(sub)
  {
    if cfg.subjectOf(t) == Some(sub) { assert t in {t}; }
  }

  ghost predicate RetagEntry(cfg: Config, s: Data, s': Data, r: RepoId, t: Tag, d: Digest, now: Millis, k: Key) {
    if k.T? || k.G? || k.H? || k.J? then PushEntry(cfg, s, s', r, d, {}, {t}, now, k)
    else if k.F? then
      k in s' <==>
        || (k.repo == r && k.referrer == d && NamesSubject(cfg, {t}, k.subject))
        || (k in s && !(k.repo == r && Displaced(cfg, s, r, {t}, d, k.subject, k.referrer)))
    else SameKey(s, s', k)
  }

  lemma RetagTouches(cfg: Config, s: Data, r: RepoId, t: Tag, d: Digest, now: Millis, k: Key)
    ensures var e := Effect(SetTagDels(cfg, s, r, t, d), SetTagPuts(cfg, r, t, d, now));
      RetagEntry(cfg, s, Perform(s, e), r, t, d, now, k)
  {
    PerformAt(s, Effect(SetTagDels(cfg, s, r, t, d), SetTagPuts(cfg, r, t, d, now)), k);
    SetTagPutsAt(cfg, r, t, d, now, k);
    OneTagDels(cfg, s, r, t, d);
    TagSetDelsAt(cfg, s, r, {t}, d, k);
    if k.F? { OneTagNames(cfg, t, k.subject); }
  }

  lemma RetagMoves(cfg: Config, s: Data, s': Data, r: RepoId, t: Tag, d: Digest, now: Millis)
    requires forall k: Key :: RetagEntry(cfg, s, s', r, t, d, now, k)
    ensures TagsMoved(s, s', r, {t}, d, now)
  {
    forall x: RepoId, u: Tag ensures
      if x == r && u in {t} then T(x, u) in s' && s'[T(x, u)] == TagV(d, Secs(now)) else SameKey(s, s', T(x, u))
    { assert RetagEntry(cfg, s, s', r, t, d, now, T(x, u)); }
    forall x: RepoId, y: Digest, u: Tag ensures G(x, y, u) in s' <==>
      if x == r && u in {t} then y == d || (G(x, y, u) in s && TagAt(s, r, u) != Some(y)) else G(x, y, u) in s
    { assert RetagEntry(cfg, s, s', r, t, d, now, G(x, y, u)); }
    forall x: RepoId, u: Tag, at: Millis, y: Digest ensures
      if x == r && u in {t} && at == now && y == d
      then H(x, u, at, y) in s' && s'[H(x, u, at, y)] == EventV(Created) else SameKey(s, s', H(x, u, at, y))
    { assert RetagEntry(cfg, s, s', r, t, d, now, H(x, u, at, y)); }
    forall x: RepoId, u: Tag, at: Millis, y: Digest ensures
      if x == r && u in {t} && at == now && y == d
      then J(x, y, at, u) in s' && s'[J(x, y, at, u)] == EventV(Created) else SameKey(s, s', J(x, y, at, u))
    { assert RetagEntry(cfg, s, s', r, t, d, now, J(x, y, at, u)); }
  }

  lemma RetagReferrers(cfg: Config, s: Data, s': Data, r: RepoId, t: Tag, d: Digest, now: Millis)
    requires forall k: Key :: RetagEntry(cfg, s, s', r, t, d, now, k)
    ensures ReferrersMoved(cfg, s, s', r, {t}, d, None)
  {
    forall x: RepoId, sub: Digest, f: Digest ensures F(x, sub, f) in s' <==>
      || (x == r && f == d && NamesSubject(cfg, {t}, sub))
      || (F(x, sub, f) in s && !(x == r && Displaced(cfg, s, r, {t}, d, sub, f)))
    { assert RetagEntry(cfg, s, s', r, t, d, now, F(x, sub, f)); }
  }

  predicate TagKey(k: Key) { k.T? || k.G? || k.H? || k.J? || k.F? }

  lemma RetagFrame(cfg: Config, s: Data, s': Data, r: RepoId, t: Tag, d: Digest, now: Millis)
    requires forall k: Key :: RetagEntry(cfg, s, s', r, t, d, now, k)
    ensures forall k: Key :: !TagKey(k) ==> SameKey(s, s', k)
    ensures forall k: Key, x: RepoId :: k in s' && Mentions(k, x) ==> k in s || x == r
  {
    forall k: Key | !TagKey(k) ensures SameKey(s, s', k) { assert RetagEntry(cfg, s, s', r, t, d, now, k); }
    forall k: Key, x: RepoId | k in s' && Mentions(k, x) ensures k in s || x == r {
      assert RetagEntry(cfg, s, s', r, t, d, now, k);
    }
  }

  lemma RetaggedInv(cfg: Config, s: Data, s': Data, r: RepoId, t: Tag, d: Digest, now: Millis)
    requires Inv(cfg, s) && I(r) in s && M(r, d) in s
    requires forall k: Key :: RetagEntry(cfg, s, s', r, t, d, now, k)
    ensures Inv(cfg, s')
  {
    RetagMoves(cfg, s, s', r, t, d, now);
    RetagReferrers(cfg, s, s', r, t, d, now);
    RetagFrame(cfg, s, s', r, t, d, now);
    forall x: RepoId, y: Digest ensures SameKey(s, s', M(x, y)) && SameKey(s, s', Z(x, y)) && SameKey(s, s', P(x, y)) {}
    forall y: Digest ensures SameKey(s, s', C(y)) {}
    MovedTagIndex(s, s', r, {t}, d, now);
    MovedHistory(s, s', r, {t}, d, now);
    MovedReferrers(cfg, s, s', r, {t}, d, now, None);
    forall b: Digest, x: RepoId, m: Digest ensures SameKey(s, s', R(b, x, m)) {}
    forall x: RepoId, c: Digest, p: Digest ensures SameKey(s, s', S(x, c, p)) {}
    forall x: RepoId, u: Tag | T(x, u) in s' ensures s'[T(x, u)].TagV? {
      assert (x == r && u in {t}) || SameKey(s, s', T(x, u));
    }
    NamesFrame(s, s');
  }

  lemma SetTagKeepsInv(cfg: Config, s: Data, r: RepoId, t: Tag, d: Digest, now: Millis)
    requires Inv(cfg, s) && I(r) in s
    ensures var e := SetTag(cfg, s, r, t, d, now); e.Ok? ==> Inv(cfg, Perform(s, e.value))
  {
    var e := SetTag(cfg, s, r, t, d, now);
    if e.Ok? {
      forall k: Key ensures RetagEntry(cfg, s, Perform(s, e.value), r, t, d, now, k) { RetagTouches(cfg, s, r, t, d, now, k); }
      RetaggedInv(cfg, s, Perform(s, e.value), r, t, d, now);
    }
  }

  // --- dropping tags, with or without their manifest --------------------

  /** One key after `tags` stop pointing at `d`; `gone` when the manifest goes too. */
  ghost predicate DropEntry(cfg: Config, s: Data, s': Data, r: RepoId, d: Digest, tags: set<Tag>, now: Millis, gone: bool, k: Key) {
    match k
    case M(x, y) => if gone && x == r && y == d then k !in s' else SameKey(s, s', k)
    case Z(x, y) => if gone && x == r && y == d then k !in s' else SameKey(s, s', k)
    case T(x, t) => if x == r && t in tags then k !in s' else SameKey(s, s', k)
    case G(x, y, t) => k in s' <==> k in s && !(x == r && y == d && t in tags)
    case R(b, x, m) => k in s' <==> k in s && !(gone && x == r && m == d && b in Layers(cfg.doc(d)))
    case S(x, c, p) => k in s' <==> k in s && !(gone && x == r && ((p == d && c in cfg.doc(d).children) || c == d))
    case F(x, sub, f) =>
      k in s' <==> k in s && !(x == r && f == d && (NamesSubject(cfg, tags, sub) || (gone && cfg.doc(d).subject == Some(sub))))
    case H(x, t, at, y) =>
      if x == r && t in tags && at == now && y == d then k in s' && s'[k] == EventV(Deleted) else SameKey(s, s', k)
    case J(x, y, at, t) =>
      if x == r && t in tags && at == now && y == d then k in s' && s'[k] == EventV(Deleted) else SameKey(s, s', k)
    case _ => SameKey(s, s', k)
  }

  ghost predicate Dropped(cfg: Config, s: Data, s': Data, r: RepoId, d: Digest, tags: set<Tag>, now: Millis, gone: bool) {
    && (forall t: Tag :: t in tags ==> TagAt(s, r, t) == Some(d))
    && (gone ==> forall t: Tag :: TagAt(s, r, t) == Some(d) ==> t in tags)
    && (forall k: Key :: DropEntry(cfg, s, s', r, d, tags, now, gone, k))
  }

  lemma DroppedTagIndex(cfg: Config, s: Data, s': Data, r: RepoId, d: Digest, tags: set<Tag>, now: Millis, gone: bool)
    requires TagIndex(s) && Dropped(cfg, s, s', r, d, tags, now, gone)
    ensures TagIndex(s')
    ensures forall x: RepoId, t: Tag :: TagAt(s', x, t) == if x == r && t in tags then None else TagAt(s, x, t)
  {
    forall x: RepoId, t: Tag ensures TagAt(s', x, t) == if x == r && t in tags then None else TagAt(s, x, t) {
      assert DropEntry(cfg, s, s', r, d, tags, now, gone, T(x, t));
    }
    forall x: RepoId, y: Digest, t: Tag ensures G(x, y, t) in s' <==> TagAt(s', x, t) == Some(y) {
      assert DropEntry(cfg, s, s', r, d, tags, now, gone, G(x, y, t));
    }
    forall x: RepoId, y: Digest ensures (M(x, y) in s' <==> M(x, y) in s && !(gone && x == r && y == d)) && (M(x, y) in s' <==> Z(x, y) in s') {
      assert DropEntry(cfg, s, s', r, d, tags, now, gone, M(x, y));
      assert DropEntry(cfg, s, s', r, d, tags, now, gone, Z(x, y));
    }
    forall x: RepoId, t: Tag | T(x, t) in s' && s'[T(x, t)].TagV? ensures M(x, s'[T(x, t)].target) in s' {
      assert TagAt(s', x, t) == Some(s'[T(x, t)].target);
      assert TagAt(s, x, t) == Some(s'[T(x, t)].target);
    }
  }

  lemma DroppedHistory(cfg: Config, s: Data, s': Data, r: RepoId, d: Digest, tags: set<Tag>, now: Millis, gone: bool)
    requires HistoryPaired(s) && Dropped(cfg, s, s', r, d, tags, now, gone)
    ensures HistoryPaired(s')
  {
    forall x: RepoId, t: Tag, at: Millis, y: Digest
      ensures (H(x, t, at, y) in s' <==> J(x, y, at, t) in s') &&
        (H(x, t, at, y) in s' ==> s'[H(x, t, at, y)] == s'[J(x, y, at, t)] && s'[H(x, t, at, y)].EventV?)
    {
      assert DropEntry(cfg, s, s', r, d, tags, now, gone, H(x, t, at, y));
      assert DropEntry(cfg, s, s', r, d, tags, now, gone, J(x, y, at, t));
    }
  }

  /** No edge outlives either of its ends: the batch finds every one that names the manifest. */
  lemma DroppedEdges(cfg: Config, s: Data, s': Data, r: RepoId, d: Digest, tags: set<Tag>, now: Millis, gone: bool)
    requires TagIndex(s) && EdgesSound(cfg, s) && Dropped(cfg, s, s', r, d, tags, now, gone)
    ensures EdgesSound(cfg, s')
  {
    DroppedTagIndex(cfg, s, s', r, d, tags, now, gone);
    forall x: RepoId, y: Digest ensures M(x, y) in s' <==> M(x, y) in s && !(gone && x == r && y == d) {
      assert DropEntry(cfg, s, s', r, d, tags, now, gone, M(x, y));
    }
    forall b: Digest, x: RepoId, m: Digest | R(b, x, m) in s' ensures M(x, m) in s' && b in Layers(cfg.doc(m)) {
      assert DropEntry(cfg, s, s', r, d, tags, now, gone, R(b, x, m));
    }
    forall x: RepoId, c: Digest, p: Digest | S(x, c, p) in s' ensures M(x, c) in s' && M(x, p) in s' && c in cfg.doc(p).children {
      assert DropEntry(cfg, s, s', r, d, tags, now, gone, S(x, c, p));
    }
    forall x: RepoId, sub: Digest, f: Digest | F(x, sub, f) in s'
      ensures M(x, f) in s' && (cfg.doc(f).subject == Some(sub) || NamedByTag(cfg, s', x, sub, f))
    {
      assert DropEntry(cfg, s, s', r, d, tags, now, gone, F(x, sub, f));
      if cfg.doc(f).subject != Some(sub) {
        var t: Tag :| TagAt(s, x, t) == Some(f) && cfg.subjectOf(t) == Some(sub);
        assert x == r && t in tags ==> f == d && NamesSubject(cfg, tags, sub);
        assert TagAt(s', x, t) == Some(f);
      }
    }
  }

  lemma DroppedRest(cfg: Config, s: Data, s': Data, r: RepoId, d: Digest, tags: set<Tag>, now: Millis, gone: bool)
    requires Inv(cfg, s) && (tags == {} || I(r) in s || Dead(r) in s) && Dropped(cfg, s, s', r, d, tags, now, gone)
    ensures WellTyped(cfg, s') && MarksUnreferenced(s') && NoOrphans(s') && Bijection(s')
  {
    forall x: RepoId, t: Tag | T(x, t) in s' ensures SameKey(s, s', T(x, t)) {
      assert DropEntry(cfg, s, s', r, d, tags, now, gone, T(x, t));
    }
    forall b: Digest ensures SameKey(s, s', C(b)) { assert DropEntry(cfg, s, s', r, d, tags, now, gone, C(b)); }
    forall x: RepoId, b: Digest ensures SameKey(s, s', P(x, b)) { assert DropEntry(cfg, s, s', r, d, tags, now, gone, P(x, b)); }
    forall x: RepoId, y: Digest | M(x, y) in s' ensures SameKey(s, s', M(x, y)) {
      assert DropEntry(cfg, s, s', r, d, tags, now, gone, M(x, y));
    }
    forall b: Digest, x: RepoId, m: Digest | R(b, x, m) in s' ensures R(b, x, m) in s {
      assert DropEntry(cfg, s, s', r, d, tags, now, gone, R(b, x, m));
    }
    forall k: Key | k.N? || k.I? || k.Dead? ensures SameKey(s, s', k) { assert DropEntry(cfg, s, s', r, d, tags, now, gone, k); }
    forall k: Key, x: RepoId | k in s' && Mentions(k, x) ensures k in s || I(x) in s || Dead(x) in s {
      assert DropEntry(cfg, s, s', r, d, tags, now, gone, k);
    }
    NamesFrame(s, s');
  }

  lemma DroppedInv(cfg: Config, s: Data, s': Data, r: RepoId, d: Digest, tags: set<Tag>, now: Millis, gone: bool)
    requires Inv(cfg, s) && (tags == {} || I(r) in s || Dead(r) in s) && Dropped(cfg, s, s', r, d, tags, now, gone)
    ensures Inv(cfg, s')
  {
    DroppedTagIndex(cfg, s, s', r, d, tags, now, gone);
    DroppedHistory(cfg, s, s', r, d, tags, now, gone);
    DroppedEdges(cfg, s, s', r, d, tags, now, gone);
    DroppedRest(cfg, s, s', r, d, tags, now, gone);
  }

  // --- the two batches that drop tags -----------------------------------

  lemma DeleteTagTouches(cfg: Config, s: Data, r: RepoId, t: Tag, d: Digest, now: Millis, k: Key)
    ensures var e := Effect(DeleteTagDels(cfg, r, t, d), DeleteTagPuts(r, t, d, now));
      TagAt(s, r, t) == Some(d) ==> DropEntry(cfg, s, Perform(s, e), r, d, {t}, now, false, k)
  {
    PerformAt(s, Effect(DeleteTagDels(cfg, r, t, d), DeleteTagPuts(r, t, d, now)), k);
    if k.F? { DeletedSubjects(cfg, r, t, d, k); }
  }

  lemma DeletedSubjects(cfg: Config, r: RepoId, t: Tag, d: Digest, k: Key)
    requires k.F?
    ensures k in DeleteTagDels(cfg, r, t, d) <==> k.repo == r && k.referrer == d && NamesSubject(cfg, {t}, k.subject)
  {
    OneTagNames(cfg, t, k.subject);
  }

  lemma DeleteTagKeepsInv(cfg: Config, s: Data, r: RepoId, t: Tag, now: Millis)
    requires Inv(cfg, s)
    ensures var e := DeleteTag(cfg, s, r, t, now); e.Ok? ==> Inv(cfg, Perform(s, e.value))
  {
    var e := DeleteTag(cfg, s, r, t, now);
    if e.Ok? {
      var d := TagAt(s, r, t).value;
      forall k: Key ensures DropEntry(cfg, s, Perform(s, e.value), r, d, {t}, now, false, k) {
        DeleteTagTouches(cfg, s, r, t, d, now, k);
      }
      assert Mentions(T(r, t), r);
      DroppedInv(cfg, s, Perform(s, e.value), r, d, {t}, now, false);
    }
  }

  function TagDrops(cfg: Config, r: RepoId, tags: set<Tag>, d: Digest): set<Key> {
    set t, k | t in tags && k in DeleteTagDels(cfg, r, t, d) :: k
  }

  lemma TagDropsAt(cfg: Config, r: RepoId, tags: set<Tag>, d: Digest, k: Key)
    ensures k in TagDrops(cfg, r, tags, d) <==>
        || (k.T? && k.repo == r && k.tag in tags)
        || (k.G? && k.repo == r && k.digest == d && k.tag in tags)
        || (k.F? && k.repo == r && k.referrer == d && NamesSubject(cfg, tags, k.subject))
  {
    if k in TagDrops(cfg, r, tags, d) {
      var t: Tag :| t in tags && k in DeleteTagDels(cfg, r, t, d);
    }
    if (k.T? || (k.G? && k.digest == d)) && k.repo == r && k.tag in tags { assert k in DeleteTagDels(cfg, r, k.tag, d); }
    if k.F? && k.repo == r && k.referrer == d && NamesSubject(cfg, tags, k.subject) {
      var t: Tag :| t in tags && cfg.subjectOf(t) == Some(k.subject);
      assert k in DeleteTagDels(cfg, r, t, d);
    }
  }

  lemma DeleteManifestDelsAt(cfg: Config, s: Data, r: RepoId, d: Digest, rec: Val, tags: set<Tag>, k: Key)
    requires rec.ManifestV?
    ensures k in DeleteManifestDels(cfg, s, r, d, rec, tags) <==>
        || k == M(r, d) || k == Z(r, d)
        || (k.R? && k.repo == r && k.manifest == d && k.blob in rec.layers)
        || (k.S? && k.repo == r && k.parent == d && k.child in rec.children)
        || (k.F? && k.repo == r && k.referrer == d && rec.subject == Some(k.subject))
        || (k in s && k.S? && k.repo == r && k.child == d)
        || k in TagDrops(cfg, r, tags, d)
  {}

  lemma DeleteManifestTouches(cfg: Config, s: Data, r: RepoId, d: Digest, tags: set<Tag>, now: Millis, k: Key)
    requires M(r, d) in s && WellTyped(cfg, s)
    ensures var e := Effect(DeleteManifestDels(cfg, s, r, d, s[M(r, d)], tags), TagEvents(r, tags, d, now, Deleted));
      DropEntry(cfg, s, Perform(s, e), r, d, tags, now, true, k)
  {
    var rec := s[M(r, d)];
    PerformAt(s, Effect(DeleteManifestDels(cfg, s, r, d, rec, tags), TagEvents(r, tags, d, now, Deleted)), k);
    DeleteManifestDelsAt(cfg, s, r, d, rec, tags, k);
    TagEventsAt(r, tags, d, now, Deleted, k);
    TagDropsAt(cfg, r, tags, d, k);
  }

  lemma TagsPointing(s: Data, r: RepoId, d: Digest, t: Tag)
    ensures t in TagsPointingAt(s, r, d) <==> G(r, d, t) in s
  {
    if G(r, d, t) in s { assert G(r, d, t).tag in TagsPointingAt(s, r, d); }
  }

  lemma DeleteManifestKeepsInv(cfg: Config, s: Data, r: RepoId, d: Digest, now: Millis)
    requires Inv(cfg, s)
    ensures var e := DeleteManifest(cfg, s, r, d, now); e.Ok? ==> Inv(cfg, Perform(s, e.value))
  {
    var e := DeleteManifest(cfg, s, r, d, now);
    if e.Ok? {
      var tags := TagsPointingAt(s, r, d);
      forall k: Key ensures DropEntry(cfg, s, Perform(s, e.value), r, d, tags, now, true, k) {
        DeleteManifestTouches(cfg, s, r, d, tags, now, k);
      }
      forall t: Tag ensures t in tags <==> TagAt(s, r, t) == Some(d) { TagsPointing(s, r, d, t); }
      assert Mentions(M(r, d), r);
      DroppedInv(cfg, s, Perform(s, e.value), r, d, tags, now, true);
    }
  }
}
