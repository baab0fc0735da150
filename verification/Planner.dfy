/**
 The registry's plans as they run: batches grown by loops and cursor drains over one engine, each
 proved to come to the effect the state machine applies.
 */
module Planner {
  import opened Results
  import opened Paging
  import opened Keys
  import opened MetaStore
  import opened Store
  import opened Registry
  import opened IndexSteps
  import opened Retractions
  import opened Staging
  import opened Guards

  // --- push -------------------------------------------------------------

  method StageDocument(cfg: Config, r: RepoId, d: Digest, now: Millis) returns (ops: seq<Op>)
    ensures Nets(ops, Effect({}, DocumentPuts(cfg, r, d, now))) && OnlyDeletes(ops, {})
  {
    ops := [];
    NetNothing();
    ghost var puts: Data := map[];
    NetPut(ops, Effect({}, puts), M(r, d), RecordOf(cfg, d, now));
    ops, puts := ops + [Put(M(r, d), RecordOf(cfg, d, now))], puts[M(r, d) := RecordOf(cfg, d, now)];
    NetPut(ops, Effect({}, puts), Z(r, d), BodyV);
    ops, puts := ops + [Put(Z(r, d), BodyV)], puts[Z(r, d) := BodyV];
    var subject := cfg.doc(d).subject;
    if subject.Some? {
      NetPut(ops, Effect({}, puts), F(r, subject.value, d), ReferrerV);
      ops, puts := ops + [Put(F(r, subject.value, d), ReferrerV)], puts[F(r, subject.value, d) := ReferrerV];
    }
    assert puts == DocumentPuts(cfg, r, d, now);
  }

  /** The parts of a push come to the whole. */
  lemma PushParts(cfg: Config, s: Data, r: RepoId, d: Digest, tags: set<Tag>, now: Millis,
                  blobs: seq<Op>, children: seq<Op>, document: seq<Op>, tagged: seq<Op>)
    requires Nets(blobs, BlobEffect(s, r, d, LinkedBlobs(s, r, cfg.doc(d).blobs), now))
    requires Nets(children, Effect({}, ChildPuts(r, d, Elements(cfg.doc(d).children))))
    requires Nets(document, Effect({}, DocumentPuts(cfg, r, d, now))) && OnlyDeletes(document, {})
    requires Staged(cfg, s, r, tags, d, now, tagged)
    ensures Run(s, blobs + children + document + tagged) == Perform(s, PushEffect(cfg, s, r, d, tags, now))
  {
    var linked := LinkedBlobs(s, r, cfg.doc(d).blobs);
    var e1 := BlobEffect(s, r, d, linked, now);
    var e2 := Effect(e1.dels + {}, e1.puts + ChildPuts(r, d, Elements(cfg.doc(d).children)));
    var e3 := Effect(e2.dels + {}, e2.puts + DocumentPuts(cfg, r, d, now));
    DeletesOf(children, {});
    NetAppend(blobs, e1, children, Effect({}, ChildPuts(r, d, Elements(cfg.doc(d).children))));
    NetAppend(blobs + children, e2, document, Effect({}, DocumentPuts(cfg, r, d, now)));
    DeletesOf(tagged, TagSetDels(cfg, s, r, tags, d));
    forall op | op in tagged && op.Delete? ensures op.key !in e3.puts {
      TagSetDelsAt(cfg, s, r, tags, d, op.key);
      BlobPutsAt(s, r, d, linked, now, op.key);
      ChildPutsAt(r, d, Elements(cfg.doc(d).children), op.key);
      DocumentPutsAt(cfg, r, d, now, op.key);
    }
    NetAppend(blobs + children + document, e3, tagged, TagEffect(cfg, s, r, tags, d, now));
    assert e3.dels == e1.dels;
    NetApply(s, blobs + children + document + tagged, Effect(e3.dels + TagSetDels(cfg, s, r, tags, d), e3.puts + TagSetPuts(cfg, r, tags, d, now)));
  }

  /** Plan a push: refused for the first reason found, or one batch for all of it. */
  method PlanManifestPut(cfg: Config, s: Data, r: RepoId, d: Digest, claimed: Option<Digest>, tags: seq<Tag>, now: Millis)
    returns (out: Result<seq<Op>, Error>, displaced: Option<Digest>)
    ensures out.Err? <==> PushRefusal(cfg, s, r, d, claimed, tags).Some?
    ensures out.Err? ==> out.error == PushRefusal(cfg, s, r, d, claimed, tags).value
    ensures out.Ok? <==> Pushable(cfg, s, r, d, claimed, tags)
    ensures out.Err? ==> RefusedFor(cfg, s, r, d, claimed, tags, out.error)
    ensures out.Ok? ==> Run(s, out.value) == Perform(s, PushEffect(cfg, s, r, d, Elements(tags), now))
    ensures out.Ok? ==> displaced == if tags == [] then None else TagAt(s, r, tags[0])
  {
    displaced := None;
    RefusalIff(cfg, s, r, d, claimed, tags);
    if claimed.Some? && claimed.value != d { return Err(DigestInvalid), None; }
    var doc := cfg.doc(d);
    var blobs := StageBlobs(s, r, d, doc.blobs, now);
    if blobs.Err? { return blobs, None; }
    var children := StageChildren(s, r, d, doc.children);
    if children.Err? { return children, None; }
    var document := StageDocument(cfg, r, d, now);
    var tagged;
    tagged, displaced := StageTags(cfg, s, r, d, tags, now);
    if tagged.Err? { return tagged, None; }
    PushParts(cfg, s, r, d, Elements(tags), now, blobs.value, children.value, document, tagged.value);
    out := Ok(blobs.value + children.value + document + tagged.value);
  }

  // --- deletes ----------------------------------------------------------

  /** Every key under a prefix, page by page. */
  method Drain(engine: Engine, g: Range, step: nat) returns (keys: seq<Key>)
    requires step > 0
    ensures Elements(keys) == Pool(engine.data, g) && |keys| == |Pool(engine.data, g)|
  {
    KeysAreOrdered();
    ghost var pool := Pool(engine.data, g);
    keys := [];
    var cursor: Option<Key> := None;
    NothingBehind(Before, pool);
    while true
      invariant var lists := Lists(keys, Behind(Before, pool, cursor)); lists
      decreases Rest(Before, pool, cursor)
    {
      var page := engine.Scan(g, cursor, step);
      DrainPage(Before, pool, cursor, step, page, keys);
      keys := keys + page.keys;
      if page.next.None? { return; }
      cursor := page.next;
    }
  }

  /** Each key of the set, once. */
  ghost predicate Lists(keys: seq<Key>, all: set<Key>) { Elements(keys) == all && |keys| == |all| }

  lemma DrainPage(lt: (Key, Key) -> bool, pool: set<Key>, cursor: Option<Key>, step: nat, page: Page<Key>, keys: seq<Key>)
    requires StrictOrder(lt) && (var served := IsPage(lt, pool, cursor, step, page); served)
    requires var lists := Lists(keys, Behind(lt, pool, cursor)); lists
    ensures page.next.None? ==> (var lists := Lists(keys + page.keys, pool); lists)
    ensures page.next.Some? ==> (var lists := Lists(keys + page.keys, Behind(lt, pool, page.next)); lists)
    ensures page.next.Some? ==> Rest(lt, pool, page.next) < Rest(lt, pool, cursor)
  {
    PageExtends(lt, pool, cursor, step, page);
    DistinctSize(lt, page.keys);
    assert Elements(keys + page.keys) == Elements(keys) + Elements(page.keys);
    if page.next.Some? { PageShrinksRest(lt, pool, cursor, step, page); }
  }

  /** Point deletes of a run of keys. */
  method DeleteAll(keys: seq<Key>) returns (ops: seq<Op>)
    ensures Nets(ops, Effect(Elements(keys), map[])) && |ops| == |keys|
  {
    ops := [];
    NetNothing();
    var i := 0;
    while i < |keys|
      invariant 0 <= i <= |keys| && |ops| == i
      invariant Nets(ops, Effect(Elements(keys[..i]), map[]))
    {
      ElementsSnoc(keys, i);
      NetDelete(ops, Effect(Elements(keys[..i]), map[]), keys[i]);
      ops := ops + [Delete(keys[i])];
      i := i + 1;
    }
    assert keys[..|keys|] == keys;
  }

  /** Drop a blob's membership of one repository, and every edge from it. */
  method PlanBlobReferenceDelete(engine: Engine, r: RepoId, b: Digest, step: nat) returns (out: Result<seq<Op>, Error>, removed: nat)
    requires step > 0
    ensures out.Err? <==> DeleteBlob(engine.data, r, b).Err?
    ensures out.Ok? <==> Entitled(engine.data, r, b)
    ensures out.Err? ==> out.error == BlobUnknown
    ensures removed == |Pool(engine.data, RefsIn(b, r))|
    ensures out.Ok? ==> Run(engine.data, out.value) == Perform(engine.data, DeleteBlob(engine.data, r, b).value)
  {
    var s := engine.data;
    ServableIff(s, r, b);
    var edges := Drain(engine, RefsIn(b, r), step);
    removed := |edges|;
    NoneDrained(s, r, b, edges);
    if P(r, b) !in s && removed == 0 { return Err(BlobUnknown), removed; }
    var batch := StageBlobReferenceDelete(s, r, b, edges);
    out := Ok(batch);
  }

  lemma NoneDrained(s: Data, r: RepoId, b: Digest, edges: seq<Key>)
    requires Elements(edges) == Pool(s, RefsIn(b, r))
    ensures edges == [] <==> !ReferencedIn(s, b, r)
  {
    if edges != [] { assert edges[0] in Elements(edges); }
    if ReferencedIn(s, b, r) { var k :| k in s && InRange(k, RefsIn(b, r)); assert k in Elements(edges); }
  }

  /** The edges found, the membership if there is one, and purge's mark. */
  method StageBlobReferenceDelete(s: Data, r: RepoId, b: Digest, edges: seq<Key>) returns (batch: seq<Op>)
    requires Elements(edges) == Pool(s, RefsIn(b, r)) && Servable(s, r, b)
    ensures Run(s, batch) == Perform(s, DeleteBlob(s, r, b).value)
  {
    batch := DeleteAll(edges);
    ghost var e := Effect(Elements(edges), map[]);
    if P(r, b) in s {
      NetDelete(batch, e, P(r, b));
      batch, e := batch + [Delete(P(r, b))], Effect(e.dels + {P(r, b)}, map[]);
    }
    NetDelete(batch, e, C(b));
    batch, e := batch + [Delete(C(b))], Effect(e.dels + {C(b)}, map[]);
    NetApply(s, batch, e);
    assert Perform(s, e) == Perform(s, DeleteBlob(s, r, b).value);
  }

  ghost function DropEffect(cfg: Config, r: RepoId, tags: set<Tag>, d: Digest, now: Millis): Effect {
    Effect(TagDrops(cfg, r, tags, d), TagEvents(r, tags, d, now, Deleted))
  }

  /** A tag's record and edges go; the event stays, under the tag and under the manifest. */
  method StageDeleteTag(cfg: Config, r: RepoId, t: Tag, d: Digest, now: Millis) returns (ops: seq<Op>)
    ensures Nets(ops, Effect(DeleteTagDels(cfg, r, t, d), DeleteTagPuts(r, t, d, now)))
    ensures OnlyDeletes(ops, DeleteTagDels(cfg, r, t, d))
  {
    NetNothing();
    var keys := [T(r, t), G(r, d, t)];
    var subject := cfg.subjectOf(t);
    if subject.Some? { keys := keys + [F(r, subject.value, d)]; }
    assert Elements(keys) == DeleteTagDels(cfg, r, t, d);
    ops := DeleteAll(keys);
    assert OnlyDeletes(ops, Elements(keys)) by { DeletesOf(ops, Elements(keys)); }
    ghost var e := Effect(Elements(keys), map[]);
    NetPut(ops, e, H(r, t, now, d), EventV(Deleted));
    ops, e := ops + [Put(H(r, t, now, d), EventV(Deleted))], Effect(e.dels, e.puts[H(r, t, now, d) := EventV(Deleted)]);
    NetPut(ops, e, J(r, d, now, t), EventV(Deleted));
    ops, e := ops + [Put(J(r, d, now, t), EventV(Deleted))], Effect(e.dels, e.puts[J(r, d, now, t) := EventV(Deleted)]);
    assert e.puts == DeleteTagPuts(r, t, d, now);
  }

  lemma DropMore(cfg: Config, r: RepoId, done: set<Tag>, t: Tag, d: Digest, now: Millis)
    ensures TagDrops(cfg, r, done + {t}, d) == TagDrops(cfg, r, done, d) + DeleteTagDels(cfg, r, t, d)
    ensures TagEvents(r, done + {t}, d, now, Deleted) == TagEvents(r, done, d, now, Deleted) + DeleteTagPuts(r, t, d, now)
  {
    forall k: Key ensures k in TagDrops(cfg, r, done + {t}, d) <==> k in TagDrops(cfg, r, done, d) || k in DeleteTagDels(cfg, r, t, d) {
      if k in DeleteTagDels(cfg, r, t, d) { assert t in done + {t}; }
    }
    EventsMore(r, done, t, d, now);
  }

  lemma EventsMore(r: RepoId, done: set<Tag>, t: Tag, d: Digest, now: Millis)
    ensures TagEvents(r, done + {t}, d, now, Deleted) == TagEvents(r, done, d, now, Deleted) + DeleteTagPuts(r, t, d, now)
  {
    forall k: Key
      ensures k in TagEvents(r, done + {t}, d, now, Deleted) <==> k in TagEvents(r, done, d, now, Deleted) + DeleteTagPuts(r, t, d, now)
      ensures k in TagEvents(r, done + {t}, d, now, Deleted) ==>
        TagEvents(r, done + {t}, d, now, Deleted)[k] == (TagEvents(r, done, d, now, Deleted) + DeleteTagPuts(r, t, d, now))[k]
    {
      TagEventsAt(r, done + {t}, d, now, Deleted, k);
      TagEventsAt(r, done, d, now, Deleted, k);
      UnionAt(TagEvents(r, done, d, now, Deleted), DeleteTagPuts(r, t, d, now), k);
    }
    SameMaps(TagEvents(r, done + {t}, d, now, Deleted), TagEvents(r, done, d, now, Deleted) + DeleteTagPuts(r, t, d, now));
  }

  lemma OneMoreDrop(cfg: Config, r: RepoId, done: set<Tag>, t: Tag, d: Digest, now: Millis, batch: seq<Op>, one: seq<Op>)
    requires Nets(batch, DropEffect(cfg, r, done, d, now))
    requires Nets(one, Effect(DeleteTagDels(cfg, r, t, d), DeleteTagPuts(r, t, d, now))) && OnlyDeletes(one, DeleteTagDels(cfg, r, t, d))
    ensures Nets(batch + one, DropEffect(cfg, r, done + {t}, d, now))
  {
    forall op | op in one && op.Delete? ensures op.key !in TagEvents(r, done, d, now, Deleted) {
      TagEventsAt(r, done, d, now, Deleted, op.key);
    }
    NetAppend(batch, DropEffect(cfg, r, done, d, now), one, Effect(DeleteTagDels(cfg, r, t, d), DeleteTagPuts(r, t, d, now)));
    DropMore(cfg, r, done, t, d, now);
  }

  function TagsNamed(keys: seq<Key>): set<Tag> {
    set k | k in keys && k.G? :: k.tag
  }

  /** The cascade over every tag a manifest delete found pointing at it. */
  method StageDropTags(cfg: Config, r: RepoId, keys: seq<Key>, d: Digest, now: Millis) returns (batch: seq<Op>)
    requires forall k :: k in keys ==> k.G?
    ensures Nets(batch, DropEffect(cfg, r, TagsNamed(keys), d, now))
  {
    batch := [];
    ghost var tags: set<Tag> := {};
    NetNothing();
    NoDrops(cfg, r, d, now);
    var i := 0;
    while i < |keys|
      invariant 0 <= i <= |keys|
      invariant tags == TagsNamed(keys[..i])
      invariant Nets(batch, DropEffect(cfg, r, tags, d, now))
    {
      assert keys[i] in keys;
      var t := keys[i].tag;
      assert keys[..i + 1] == keys[..i] + [keys[i]];
      var one := StageDeleteTag(cfg, r, t, d, now);
      OneMoreDrop(cfg, r, tags, t, d, now, batch, one);
      batch, tags := batch + one, tags + {t};
      i := i + 1;
    }
    assert keys[..|keys|] == keys;
  }

  lemma NoDrops(cfg: Config, r: RepoId, d: Digest, now: Millis)
    ensures DropEffect(cfg, r, {}, d, now) == Nothing
  {
    var none: set<Tag> := {};
    assert TagDrops(cfg, r, none, d) == {};
    forall k: Key ensures k !in TagEvents(r, none, d, now, Deleted) { TagEventsAt(r, none, d, now, Deleted, k); }
    assert TagEvents(r, none, d, now, Deleted) == map[];
  }

  /** The manifest's own keys and edges, in both directions of the index graph. */
  method EdgesNaming(engine: Engine, r: RepoId, d: Digest, rec: Val, step: nat) returns (keys: seq<Key>)
    requires step > 0 && rec.ManifestV?
    ensures Elements(keys) ==
      {M(r, d), Z(r, d)} + (set b | b in rec.layers :: R(b, r, d)) + (set c | c in rec.children :: S(r, c, d))
      + (match rec.subject case Some(sub) => {F(r, sub, d)} case None => {}) + Pool(engine.data, ParentsOf(r, d))
  {
    keys := [M(r, d), Z(r, d)];
    for i := 0 to |rec.layers|
      invariant Elements(keys) == {M(r, d), Z(r, d)} + (set b | b in rec.layers[..i] :: R(b, r, d))
    {
      assert rec.layers[..i + 1] == rec.layers[..i] + [rec.layers[i]];
      keys := keys + [R(rec.layers[i], r, d)];
    }
    assert rec.layers[..|rec.layers|] == rec.layers;
    ghost var edges := Elements(keys);
    for i := 0 to |rec.children|
      invariant Elements(keys) == edges + (set c | c in rec.children[..i] :: S(r, c, d))
    {
      assert rec.children[..i + 1] == rec.children[..i] + [rec.children[i]];
      keys := keys + [S(r, rec.children[i], d)];
    }
    assert rec.children[..|rec.children|] == rec.children;
    if rec.subject.Some? { keys := keys + [F(r, rec.subject.value, d)]; }
    var parents := Drain(engine, ParentsOf(r, d), step);
    keys := keys + parents;
  }

  /** Remove a manifest, every edge that names it, and every tag that points at it, in one batch. */
  method PlanManifestDelete(cfg: Config, engine: Engine, r: RepoId, d: Digest, now: Millis, step: nat) returns (out: Result<seq<Op>, Error>)
    requires step > 0
    ensures out.Err? <==> DeleteManifest(cfg, engine.data, r, d, now).Err?
    ensures out.Ok? <==> M(r, d) in engine.data && engine.data[M(r, d)].ManifestV?
    ensures out.Err? ==> out.error == ManifestUnknown
    ensures out.Ok? ==> Run(engine.data, out.value) == Perform(engine.data, DeleteManifest(cfg, engine.data, r, d, now).value)
  {
    var s := engine.data;
    if M(r, d) !in s || !s[M(r, d)].ManifestV? { return Err(ManifestUnknown); }
    var keys := EdgesNaming(engine, r, d, s[M(r, d)], step);
    var edges := DeleteAll(keys);
    var pointing := Drain(engine, TagsOf(r, d), step);
    assert forall k :: k in pointing ==> k in Elements(pointing);
    var drops := StageDropTags(cfg, r, pointing, d, now);
    ghost var tags := TagsNamed(pointing);
    TagsDrained(s, r, d, pointing);
    NetAppend(edges, Effect(Elements(keys), map[]), drops, DropEffect(cfg, r, tags, d, now));
    EmptyUnion(TagEvents(r, tags, d, now, Deleted));
    NetApply(s, edges + drops, Effect(Elements(keys) + TagDrops(cfg, r, tags, d), TagEvents(r, tags, d, now, Deleted)));
    DeleteParts(cfg, s, r, d, Elements(keys), tags, now);
    out := Ok(edges + drops);
  }

  lemma TagsDrained(s: Data, r: RepoId, d: Digest, keys: seq<Key>)
    requires Elements(keys) == Pool(s, TagsOf(r, d))
    ensures TagsNamed(keys) == TagsPointingAt(s, r, d)
  {
    forall t: Tag | t in TagsPointingAt(s, r, d) ensures t in TagsNamed(keys) {
      TagsPointing(s, r, d, t);
      assert G(r, d, t) in Pool(s, TagsOf(r, d));
      assert G(r, d, t) in Elements(keys) && G(r, d, t).tag == t;
    }
    forall k | k in keys && k.G? ensures k.tag in TagsPointingAt(s, r, d) { assert k in Elements(keys); }
  }

  lemma DeleteParts(cfg: Config, s: Data, r: RepoId, d: Digest, keys: set<Key>, tags: set<Tag>, now: Millis)
    requires M(r, d) in s && s[M(r, d)].ManifestV? && tags == TagsPointingAt(s, r, d)
    requires var rec := s[M(r, d)];
      keys == {M(r, d), Z(r, d)} + (set b | b in rec.layers :: R(b, r, d)) + (set c | c in rec.children :: S(r, c, d))
              + (match rec.subject case Some(sub) => {F(r, sub, d)} case None => {}) + Pool(s, ParentsOf(r, d))
    ensures Perform(s, Effect(keys + TagDrops(cfg, r, tags, d), TagEvents(r, tags, d, now, Deleted)))
         == Perform(s, DeleteManifest(cfg, s, r, d, now).value)
  {
    assert keys + TagDrops(cfg, r, tags, d) == DeleteManifestDels(cfg, s, r, d, s[M(r, d)], tags);
  }
}
