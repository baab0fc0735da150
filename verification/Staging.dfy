/** The loops that grow a batch while a plan reads the store, and the net effect of what they stage. */
module Staging {
  import opened Bytes
  import opened Results
  import opened Paging
  import opened Keys
  import opened MetaStore
  import opened Store
  import opened Registry
  import opened Guards
  import opened IndexSteps
  import opened Retractions

  // --- net effects ------------------------------------------------------

  /** The batch comes to this effect, wherever it is applied. */
  ghost predicate Nets(ops: seq<Op>, e: Effect) {
    PointOps(ops) && Summary(ops) == e
  }

  lemma NetApply(s: Data, ops: seq<Op>, e: Effect)
    requires Nets(ops, e)
    ensures Run(s, ops) == Perform(s, e)
  {
    SummaryIsApply(s, ops);
  }

  lemma NetDelete(ops: seq<Op>, e: Effect, k: Key)
    requires Nets(ops, e) && k !in e.puts
    ensures Nets(ops + [Delete(k)], Effect(e.dels + {k}, e.puts))
  {
    assert (ops + [Delete(k)])[..|ops|] == ops;
    assert e.puts - {k} == e.puts;
  }

  lemma NetPut(ops: seq<Op>, e: Effect, k: Key, v: Val)
    requires Nets(ops, e)
    ensures Nets(ops + [Put(k, v)], Effect(e.dels, e.puts[k := v]))
  {
    assert (ops + [Put(k, v)])[..|ops|] == ops;
  }

  /** Batches whose deletes spare the other's puts simply add up. */
  lemma {:induction false} NetAppend(a: seq<Op>, ea: Effect, b: seq<Op>, eb: Effect)
    requires Nets(a, ea) && Nets(b, eb) && Spares(b, ea)
    ensures Nets(a + b, Effect(ea.dels + eb.dels, ea.puts + eb.puts))
    decreases |b|
  {
    if b == [] {
      assert a + b == a && ea.dels + {} == ea.dels && ea.puts + map[] == ea.puts;
    } else {
      var n := |b| - 1;
      var b1, op := b[..n], b[n];
      var e1 := Summary(b1);
      NetAppend(a, ea, b1, e1);
      assert a + b == (a + b1) + [op];
      assert ((a + b1) + [op])[..|a + b1|] == a + b1;
      var e := Effect(ea.dels + e1.dels, ea.puts + e1.puts);
      match op {
        case Put(k, v) => assert (ea.puts + e1.puts)[k := v] == ea.puts + e1.puts[k := v];
        case Delete(k) =>
          assert op in b;
          assert (ea.puts + e1.puts) - {k} == ea.puts + (e1.puts - {k});
          assert ea.dels + e1.dels + {k} == ea.dels + (e1.dels + {k});
      }
    }
  }

  /** No delete in the batch hits a key the effect leaves behind. */
  ghost predicate Spares(ops: seq<Op>, e: Effect) {
    forall op :: op in ops && op.Delete? ==> op.key !in e.puts
  }

  const Nothing := Effect({}, map[])

  lemma NetNothing()
    ensures Nets([], Nothing)
  {}

  // --- blobs ------------------------------------------------------------

  ghost function BlobEffect(s: Data, r: RepoId, d: Digest, linked: set<Digest>, now: Millis): Effect {
    Effect(MarkKeys(linked), BlobPuts(s, r, d, linked, now))
  }

  lemma MemberPutsMore(s: Data, r: RepoId, linked: set<Digest>, b: Digest, now: Millis)
    ensures MemberPuts(s, r, linked + {b}, now) ==
      if P(r, b) in s then MemberPuts(s, r, linked, now) else MemberPuts(s, r, linked, now)[P(r, b) := MemberV(SizeOf(s, b), Secs(now))]
  {}

  lemma RefPutsMore(r: RepoId, d: Digest, linked: set<Digest>, b: Digest)
    ensures RefPuts(r, d, linked + {b}) == RefPuts(r, d, linked)[R(b, r, d) := EdgeV]
  {}

  lemma UnionMore(x: Data, x': Data, y: Data, y': Data, there: bool, k: Key, v: Val, j: Key)
    requires k !in y && x' == (if there then x else x[k := v]) && y' == y[j := EdgeV]
    ensures x' + y' == if there then (x + y)[j := EdgeV] else (x + y)[k := v][j := EdgeV]
  {}

  lemma BlobEffectMore(s: Data, r: RepoId, d: Digest, linked: set<Digest>, b: Digest, now: Millis)
    ensures BlobEffect(s, r, d, linked + {b}, now).dels == BlobEffect(s, r, d, linked, now).dels + {C(b)}
    ensures BlobEffect(s, r, d, linked + {b}, now).puts ==
      var puts := BlobEffect(s, r, d, linked, now).puts;
      if P(r, b) in s then puts[R(b, r, d) := EdgeV] else puts[P(r, b) := MemberV(SizeOf(s, b), Secs(now))][R(b, r, d) := EdgeV]
  {
    MarkKeysMore(linked, b);
    MemberPutsMore(s, r, linked, b, now);
    RefPutsMore(r, d, linked, b);
    assert P(r, b) !in RefPuts(r, d, linked);
    UnionMore(MemberPuts(s, r, linked, now), MemberPuts(s, r, linked + {b}, now), RefPuts(r, d, linked), RefPuts(r, d, linked + {b}),
              P(r, b) in s, P(r, b), MemberV(SizeOf(s, b), Secs(now)), R(b, r, d));
  }

  lemma MarkKeysMore(linked: set<Digest>, b: Digest)
    ensures MarkKeys(linked + {b}) == MarkKeys(linked) + {C(b)}
  {}

  lemma LinkedSnoc(s: Data, r: RepoId, blobs: seq<Descriptor>, i: nat)
    requires i < |blobs|
    ensures LinkedBlobs(s, r, blobs[..i + 1]) ==
      if Present(s, r, blobs[i].digest) then LinkedBlobs(s, r, blobs[..i]) + {blobs[i].digest} else LinkedBlobs(s, r, blobs[..i])
  {
    var front, more := blobs[..i], blobs[..i + 1];
    assert more == front + [blobs[i]];
    forall x | x in LinkedBlobs(s, r, more) ensures x in LinkedBlobs(s, r, front) || (x == blobs[i].digest && Present(s, r, x)) {
      var j :| 0 <= j < |more| && Present(s, r, more[j].digest) && more[j].digest == x;
      if j < i { assert front[j] == more[j]; }
    }
    forall x | x in LinkedBlobs(s, r, front) ensures x in LinkedBlobs(s, r, more) {
      var j :| 0 <= j < |front| && Present(s, r, front[j].digest) && front[j].digest == x;
      assert more[j] == front[j];
    }
    if Present(s, r, blobs[i].digest) { assert more[i].digest == blobs[i].digest; }
  }

  /** A membership where there is none, an edge, and the mark gone - for one referenced blob. */
  method StageBlob(s: Data, r: RepoId, d: Digest, b: Digest, now: Millis, batch: seq<Op>, ghost linked: set<Digest>)
    returns (more: seq<Op>)
    requires Nets(batch, BlobEffect(s, r, d, linked, now))
    ensures Nets(more, BlobEffect(s, r, d, linked + {b}, now))
  {
    ghost var e := BlobEffect(s, r, d, linked, now);
    BlobEffectMore(s, r, d, linked, b, now);
    more := batch;
    if P(r, b) !in s {
      NetPut(more, e, P(r, b), MemberV(SizeOf(s, b), Secs(now)));
      e := Effect(e.dels, e.puts[P(r, b) := MemberV(SizeOf(s, b), Secs(now))]);
      more := more + [Put(P(r, b), MemberV(SizeOf(s, b), Secs(now)))];
    }
    NetPut(more, e, R(b, r, d), EdgeV);
    e := Effect(e.dels, e.puts[R(b, r, d) := EdgeV]);
    more := more + [Put(R(b, r, d), EdgeV)];
    NetDelete(more, e, C(b));
    more := more + [Delete(C(b))];
  }

  method StageBlobs(s: Data, r: RepoId, d: Digest, blobs: seq<Descriptor>, now: Millis) returns (out: Result<seq<Op>, Error>)
    ensures out.Err? <==> FirstMissingBlob(s, r, blobs).Some?
    ensures out.Ok? <==> LayersMet(s, r, blobs)
    ensures out.Err? ==> out.error == ManifestBlobUnknown(FirstMissingBlob(s, r, blobs).value)
    ensures out.Ok? ==> Nets(out.value, BlobEffect(s, r, d, LinkedBlobs(s, r, blobs), now))
  {
    var batch: seq<Op> := [];
    ghost var missing := MissingBlob(s, r, blobs);
    NetNothing();
    assert BlobEffect(s, r, d, LinkedBlobs(s, r, blobs[..0]), now) == Nothing;
    var i := 0;
    while i < |blobs|
      invariant 0 <= i <= |blobs|
      invariant FirstMissingBlob(s, r, blobs) == FirstMissingBlob(s, r, blobs[i..])
      invariant Nets(batch, BlobEffect(s, r, d, LinkedBlobs(s, r, blobs[..i]), now))
    {
      var desc := blobs[i];
      assert blobs[i..][0] == desc && blobs[i..][1..] == blobs[i + 1..];
      LinkedSnoc(s, r, blobs, i);
      if Present(s, r, desc.digest) {
        batch := StageBlob(s, r, d, desc.digest, now, batch, LinkedBlobs(s, r, blobs[..i]));
      } else if !desc.foreign {
        return Err(ManifestBlobUnknown(desc.digest));
      }
      i := i + 1;
    }
    assert blobs[..|blobs|] == blobs;
    out := Ok(batch);
  }

  // --- children ---------------------------------------------------------

  method StageChildren(s: Data, r: RepoId, d: Digest, children: seq<Digest>) returns (out: Result<seq<Op>, Error>)
    ensures out.Err? <==> FirstMissingChild(s, r, children).Some?
    ensures out.Ok? <==> ChildrenMet(s, r, children)
    ensures out.Err? ==> out.error == ManifestBlobUnknown(FirstMissingChild(s, r, children).value)
    ensures out.Ok? ==> Nets(out.value, Effect({}, ChildPuts(r, d, Elements(children))))
  {
    var batch: seq<Op> := [];
    ghost var done: set<Digest> := {};
    NoChildren(r, d, children);
    ghost var missing := MissingChild(s, r, children);
    var i := 0;
    while i < |children|
      invariant 0 <= i <= |children| && done == Elements(children[..i])
      invariant FirstMissingChild(s, r, children) == FirstMissingChild(s, r, children[i..])
      invariant var nets := Nets(batch, Effect({}, ChildPuts(r, d, done))); nets
    {
      var c := children[i];
      MissingAhead(s, r, children, i);
      ElementsSnoc(children, i);
      if M(r, c) !in s { return Err(ManifestBlobUnknown(c)); }
      OneMoreChild(r, d, done, c, batch);
      batch := batch + [Put(S(r, c, d), EdgeV)];
      done := done + {c};
      i := i + 1;
    }
    assert children[..|children|] == children;
    out := Ok(batch);
  }

  lemma NoChildren(r: RepoId, d: Digest, children: seq<Digest>)
    ensures Elements(children[..0]) == {} && Nets([], Effect({}, ChildPuts(r, d, {})))
  {
    var none: set<Digest> := {};
    assert ChildPuts(r, d, none) == map[];
  }

  lemma OneMoreChild(r: RepoId, d: Digest, done: set<Digest>, c: Digest, batch: seq<Op>)
    requires Nets(batch, Effect({}, ChildPuts(r, d, done)))
    ensures Nets(batch + [Put(S(r, c, d), EdgeV)], Effect({}, ChildPuts(r, d, done + {c})))
  {
    assert ChildPuts(r, d, done + {c}) == ChildPuts(r, d, done)[S(r, c, d) := EdgeV];
    NetPut(batch, Effect({}, ChildPuts(r, d, done)), S(r, c, d), EdgeV);
  }

  lemma MissingAhead(s: Data, r: RepoId, children: seq<Digest>, i: nat)
    requires i < |children|
    ensures FirstMissingChild(s, r, children[i..]) == if M(r, children[i]) !in s then Some(children[i]) else FirstMissingChild(s, r, children[i + 1..])
  {
    assert children[i..][0] == children[i] && children[i..][1..] == children[i + 1..];
  }

  // --- tags -------------------------------------------------------------

  /**
   The tag check. What passes has no NUL, which is what lets NUL end a tag inside a key, and is
   text, which is what lets the key decoders give it back.
   */
  method ValidateTag(t: bytes) returns (ok: bool)
    ensures ok == ValidTag(t)
    ensures ok ==> 0 !in t && Utf8(t)
  {
    if t == [] || !TagByte(t[0]) || |t| > 128 { return false; }
    var i := 1;
    while i < |t|
      invariant 1 <= i <= |t|
      invariant forall j :: 1 <= j < i ==> TagByte(t[j]) || t[j] == 45 || t[j] == 46
    {
      if !TagByte(t[i]) && t[i] != 45 && t[i] != 46 { return false; }
      i := i + 1;
    }
    PlainText(t);
    ok := true;
  }

  ghost predicate OnlyDeletes(ops: seq<Op>, dels: set<Key>) {
    forall op :: op in ops && op.Delete? ==> op.key in dels
  }

  /** The edges a repoint displaces. */
  method StageDisplaced(cfg: Config, s: Data, r: RepoId, t: Tag, d: Digest) returns (ops: seq<Op>)
    ensures Nets(ops, Effect(SetTagDels(cfg, s, r, t, d), map[]))
  {
    ops := [];
    NetNothing();
    var previous := TagAt(s, r, t);
    if previous.Some? && previous.value != d {
      var prev := previous.value;
      NetDelete(ops, Nothing, G(r, prev, t));
      ops := ops + [Delete(G(r, prev, t))];
      ghost var e := Effect({} + {G(r, prev, t)}, map[]);
      if cfg.subjectOf(t).Some? {
        NetDelete(ops, e, F(r, cfg.subjectOf(t).value, prev));
        ops := ops + [Delete(F(r, cfg.subjectOf(t).value, prev))];
      }
    }
  }

  /** The record, the reverse edge, the event twice, and the referrer a legacy artifact tag implies. */
  method StageTagged(cfg: Config, r: RepoId, t: Tag, d: Digest, now: Millis) returns (ops: seq<Op>)
    ensures Nets(ops, Effect({}, SetTagPuts(cfg, r, t, d, now)))
  {
    ops := [];
    NetNothing();
    ghost var puts: Data := map[];
    NetPut(ops, Effect({}, puts), T(r, t), TagV(d, Secs(now)));
    ops, puts := ops + [Put(T(r, t), TagV(d, Secs(now)))], puts[T(r, t) := TagV(d, Secs(now))];
    NetPut(ops, Effect({}, puts), G(r, d, t), EdgeV);
    ops, puts := ops + [Put(G(r, d, t), EdgeV)], puts[G(r, d, t) := EdgeV];
    NetPut(ops, Effect({}, puts), H(r, t, now, d), EventV(Created));
    ops, puts := ops + [Put(H(r, t, now, d), EventV(Created))], puts[H(r, t, now, d) := EventV(Created)];
    NetPut(ops, Effect({}, puts), J(r, d, now, t), EventV(Created));
    ops, puts := ops + [Put(J(r, d, now, t), EventV(Created))], puts[J(r, d, now, t) := EventV(Created)];
    if cfg.subjectOf(t).Some? {
      NetPut(ops, Effect({}, puts), F(r, cfg.subjectOf(t).value, d), ReferrerV);
      ops, puts := ops + [Put(F(r, cfg.subjectOf(t).value, d), ReferrerV)], puts[F(r, cfg.subjectOf(t).value, d) := ReferrerV];
    }
    assert puts == SetTagPuts(cfg, r, t, d, now);
  }

  /** One tag of a push or a repoint; reports what the tag pointed at before. */
  method StageSetTag(cfg: Config, s: Data, r: RepoId, t: Tag, d: Digest, now: Millis) returns (ops: seq<Op>, previous: Option<Digest>)
    ensures Nets(ops, Effect(SetTagDels(cfg, s, r, t, d), SetTagPuts(cfg, r, t, d, now)))
    ensures previous == TagAt(s, r, t)
  {
    previous := TagAt(s, r, t);
    var gone := StageDisplaced(cfg, s, r, t, d);
    var tagged := StageTagged(cfg, r, t, d, now);
    DeletesOf(tagged, {});
    NetAppend(gone, Effect(SetTagDels(cfg, s, r, t, d), map[]), tagged, Effect({}, SetTagPuts(cfg, r, t, d, now)));
    assert SetTagDels(cfg, s, r, t, d) + {} == SetTagDels(cfg, s, r, t, d);
    EmptyUnion(SetTagPuts(cfg, r, t, d, now));
    ops := gone + tagged;
  }

  lemma EmptyUnion(m: Data)
    ensures map[] + m == m && m + map[] == m
  {}

  ghost function TagEffect(cfg: Config, s: Data, r: RepoId, tags: set<Tag>, d: Digest, now: Millis): Effect {
    Effect(TagSetDels(cfg, s, r, tags, d), TagSetPuts(cfg, r, tags, d, now))
  }

  lemma TagDelsMore(cfg: Config, s: Data, r: RepoId, tags: set<Tag>, t: Tag, d: Digest)
    ensures TagSetDels(cfg, s, r, tags + {t}, d) == TagSetDels(cfg, s, r, tags, d) + SetTagDels(cfg, s, r, t, d)
  {
    forall k: Key ensures k in TagSetDels(cfg, s, r, tags + {t}, d) <==> k in TagSetDels(cfg, s, r, tags, d) || k in SetTagDels(cfg, s, r, t, d) {
      if k in SetTagDels(cfg, s, r, t, d) { assert t in tags + {t}; }
    }
  }

  lemma SetTagWrites(cfg: Config, r: RepoId, t: Tag, d: Digest, now: Millis, k: Key)
    ensures k in SetTagPuts(cfg, r, t, d, now) <==> Written(cfg, r, {t}, d, now, k)
    ensures k in SetTagPuts(cfg, r, t, d, now) ==> SetTagPuts(cfg, r, t, d, now)[k] == WrittenValue(d, now, k)
  {
    SetTagPutsAt(cfg, r, t, d, now, k);
    if k.F? { OneTagNames(cfg, t, k.subject); }
  }

  lemma WrittenMore(cfg: Config, r: RepoId, tags: set<Tag>, t: Tag, d: Digest, now: Millis, k: Key)
    ensures Written(cfg, r, tags + {t}, d, now, k) <==> Written(cfg, r, tags, d, now, k) || Written(cfg, r, {t}, d, now, k)
  {
    if k.F? {
      if NamesSubject(cfg, tags, k.subject) {
        var u: Tag :| u in tags && cfg.subjectOf(u) == Some(k.subject);
        assert u in tags + {t};
      }
      if NamesSubject(cfg, {t}, k.subject) { assert t in tags + {t}; }
    }
  }

  lemma UnionAt(a: Data, b: Data, k: Key)
    ensures k in a + b <==> k in a || k in b
    ensures k in a + b ==> (a + b)[k] == if k in b then b[k] else a[k]
  {}

  lemma TagPutsMoreAt(cfg: Config, r: RepoId, tags: set<Tag>, t: Tag, d: Digest, now: Millis, k: Key)
    ensures var more, both := TagSetPuts(cfg, r, tags + {t}, d, now), TagSetPuts(cfg, r, tags, d, now) + SetTagPuts(cfg, r, t, d, now);
      (k in more <==> k in both) && (k in more ==> more[k] == both[k])
  {
    TagSetPutsAt(cfg, r, tags + {t}, d, now, k);
    TagSetPutsAt(cfg, r, tags, d, now, k);
    SetTagWrites(cfg, r, t, d, now, k);
    WrittenMore(cfg, r, tags, t, d, now, k);
    UnionAt(TagSetPuts(cfg, r, tags, d, now), SetTagPuts(cfg, r, t, d, now), k);
  }

  lemma TagPutsMore(cfg: Config, r: RepoId, tags: set<Tag>, t: Tag, d: Digest, now: Millis)
    ensures TagSetPuts(cfg, r, tags + {t}, d, now) == TagSetPuts(cfg, r, tags, d, now) + SetTagPuts(cfg, r, t, d, now)
  {
    forall k: Key
      ensures (k in TagSetPuts(cfg, r, tags + {t}, d, now) <==> k in TagSetPuts(cfg, r, tags, d, now) + SetTagPuts(cfg, r, t, d, now))
      ensures k in TagSetPuts(cfg, r, tags + {t}, d, now) ==>
        TagSetPuts(cfg, r, tags + {t}, d, now)[k] == (TagSetPuts(cfg, r, tags, d, now) + SetTagPuts(cfg, r, t, d, now))[k]
    { TagPutsMoreAt(cfg, r, tags, t, d, now, k); }
    SameMaps(TagSetPuts(cfg, r, tags + {t}, d, now), TagSetPuts(cfg, r, tags, d, now) + SetTagPuts(cfg, r, t, d, now));
  }

  lemma SameMaps(a: Data, b: Data)
    requires forall k: Key :: (k in a <==> k in b) && (k in a ==> a[k] == b[k])
    ensures a == b
  {}

  lemma DisplacedNames(cfg: Config, s: Data, r: RepoId, t: Tag, d: Digest, k: Key)
    requires k in SetTagDels(cfg, s, r, t, d)
    ensures (k.G? && k.digest != d) || (k.F? && k.referrer != d)
  {}

  lemma PutsNameTheTarget(cfg: Config, r: RepoId, tags: set<Tag>, d: Digest, now: Millis, k: Key)
    requires (k.G? && k.digest != d) || (k.F? && k.referrer != d)
    ensures k !in TagSetPuts(cfg, r, tags, d, now)
  {
    TagSetPutsAt(cfg, r, tags, d, now, k);
  }

  /** A tag's retractions name other manifests, so they spare what the push leaves at `d`. */
  lemma DisplacedSpares(cfg: Config, s: Data, r: RepoId, tags: set<Tag>, t: Tag, d: Digest, now: Millis, ops: seq<Op>)
    requires OnlyDeletes(ops, SetTagDels(cfg, s, r, t, d))
    ensures Spares(ops, TagEffect(cfg, s, r, tags, d, now))
  {
    forall op | op in ops && op.Delete? ensures op.key !in TagSetPuts(cfg, r, tags, d, now) {
      DisplacedNames(cfg, s, r, t, d, op.key);
      PutsNameTheTarget(cfg, r, tags, d, now, op.key);
    }
  }

  /** The batch so far sets exactly `tags`. */
  ghost predicate Staged(cfg: Config, s: Data, r: RepoId, tags: set<Tag>, d: Digest, now: Millis, batch: seq<Op>) {
    Nets(batch, TagEffect(cfg, s, r, tags, d, now))
  }

  lemma {:induction false} DeletesOf(ops: seq<Op>, dels: set<Key>)
    requires PointOps(ops) && Summary(ops).dels <= dels
    ensures OnlyDeletes(ops, dels)
    decreases |ops|
  {
    if ops != [] {
      var n := |ops| - 1;
      DeletesOf(ops[..n], dels);
      assert ops == ops[..n] + [ops[n]];
    }
  }

  ghost predicate AllValid(tags: set<Tag>) {
    forall t :: t in tags ==> ValidTag(t)
  }

  lemma InvalidAhead(tags: seq<Tag>, i: nat)
    requires i < |tags|
    ensures FirstInvalidTag(tags[i..]) == if ValidTag(tags[i]) then FirstInvalidTag(tags[i + 1..]) else Some(tags[i])
  {
    assert tags[i..][0] == tags[i] && tags[i..][1..] == tags[i + 1..];
  }

  lemma OneMoreTag(cfg: Config, s: Data, r: RepoId, done: set<Tag>, t: Tag, d: Digest, now: Millis, batch: seq<Op>, one: seq<Op>)
    requires Staged(cfg, s, r, done, d, now, batch)
    requires Nets(one, Effect(SetTagDels(cfg, s, r, t, d), SetTagPuts(cfg, r, t, d, now)))
    ensures Staged(cfg, s, r, done + {t}, d, now, batch + one)
  {
    DeletesOf(one, SetTagDels(cfg, s, r, t, d));
    DisplacedSpares(cfg, s, r, done, t, d, now, one);
    NetAppend(batch, TagEffect(cfg, s, r, done, d, now), one, Effect(SetTagDels(cfg, s, r, t, d), SetTagPuts(cfg, r, t, d, now)));
    TagDelsMore(cfg, s, r, done, t, d);
    TagPutsMore(cfg, r, done, t, d, now);
  }

  method AppendTag(cfg: Config, s: Data, r: RepoId, t: Tag, d: Digest, now: Millis, batch: seq<Op>, ghost done: set<Tag>)
    returns (more: seq<Op>, previous: Option<Digest>)
    requires var staged := Staged(cfg, s, r, done, d, now, batch); staged
    ensures var staged := Staged(cfg, s, r, done + {t}, d, now, more); staged
    ensures previous == TagAt(s, r, t)
  {
    var one;
    one, previous := StageSetTag(cfg, s, r, t, d, now);
    OneMoreTag(cfg, s, r, done, t, d, now, batch, one);
    more := batch + one;
  }

  /** Where the tag loop stands after `i` tags. */
  ghost predicate Tagging(cfg: Config, s: Data, r: RepoId, d: Digest, now: Millis, tags: seq<Tag>, i: nat,
                          batch: seq<Op>, applied: seq<Tag>, done: set<Tag>, displaced: Option<Digest>)
    requires i <= |tags|
  {
    && Seen(tags, i, applied, done)
    && Staged(cfg, s, r, done, d, now, batch)
    && displaced == if i == 0 then None else TagAt(s, r, tags[0])
  }

  /** One tag that is not yet applied. */
  method TakeTag(cfg: Config, s: Data, r: RepoId, d: Digest, now: Millis, ghost tags: seq<Tag>, ghost i: nat, t: Tag,
                 batch: seq<Op>, applied: seq<Tag>, ghost done: set<Tag>, displaced: Option<Digest>)
    returns (more: seq<Op>, first: Option<Digest>)
    requires i < |tags| && t == tags[i] && ValidTag(t)
    requires var ok := Tagging(cfg, s, r, d, now, tags, i, batch, applied, done, displaced); ok
    ensures var ok := Tagging(cfg, s, r, d, now, tags, i + 1, more, applied + [t], done + {t}, first); ok
  {
    SeenStarts(tags, i, applied, done);
    var previous;
    more, previous := AppendTag(cfg, s, r, t, d, now, batch, done);
    first := if applied == [] then previous else displaced;
    SeenFresh(tags, i, applied, done, t);
  }

  /** A tag already applied is skipped. */
  lemma SkipTag(cfg: Config, s: Data, r: RepoId, d: Digest, now: Millis, tags: seq<Tag>, i: nat,
                batch: seq<Op>, applied: seq<Tag>, done: set<Tag>, displaced: Option<Digest>)
    requires i < |tags| && tags[i] in applied
    requires var ok := Tagging(cfg, s, r, d, now, tags, i, batch, applied, done, displaced); ok
    ensures var ok := Tagging(cfg, s, r, d, now, tags, i + 1, batch, applied, done, displaced); ok
  {
    SeenStarts(tags, i, applied, done);
    SeenAgain(tags, i, applied, done);
  }

  lemma TaggingEnds(cfg: Config, s: Data, r: RepoId, d: Digest, now: Millis, tags: seq<Tag>, i: nat,
                    batch: seq<Op>, applied: seq<Tag>, done: set<Tag>, displaced: Option<Digest>)
    requires i <= |tags| && (var ok := Tagging(cfg, s, r, d, now, tags, i, batch, applied, done, displaced); ok)
    ensures i < |tags| && !ValidTag(tags[i]) ==> FirstInvalidTag(tags) == Some(tags[i])
    ensures i == |tags| ==> FirstInvalidTag(tags).None? && (var staged := Staged(cfg, s, r, Elements(tags), d, now, batch); staged)
    ensures i == |tags| ==> displaced == if tags == [] then None else TagAt(s, r, tags[0])
  {
    if i == |tags| { AllSeen(tags, applied, done); } else if !ValidTag(tags[i]) { SeenInvalid(tags, i, applied, done); }
  }

  /**
   Every tag a push lands under, each once; the first is the one whose displaced digest is
   reported.
   */
  method StageTags(cfg: Config, s: Data, r: RepoId, d: Digest, tags: seq<Tag>, now: Millis)
    returns (out: Result<seq<Op>, Error>, displaced: Option<Digest>)
    ensures out.Err? <==> FirstInvalidTag(tags).Some?
    ensures out.Ok? <==> (var met := TagsMet(tags); met)
    ensures out.Err? ==> out.error == TagInvalid(FirstInvalidTag(tags).value)
    ensures out.Ok? ==> (var staged := Staged(cfg, s, r, Elements(tags), d, now, out.value); staged)
    ensures out.Ok? ==> displaced == if tags == [] then None else TagAt(s, r, tags[0])
  {
    var batch: seq<Op> := [];
    displaced := None;
    var applied: seq<Tag> := [];
    ghost var done: set<Tag> := {};
    NoTags(cfg, s, r, d, now);
    TagsMetIff(tags);
    NoneSeen(tags);
    var i := 0;
    while i < |tags|
      invariant 0 <= i <= |tags|
      invariant var ok := Tagging(cfg, s, r, d, now, tags, i, batch, applied, done, displaced); ok
    {
      var t := tags[i];
      if t in applied {
        SkipTag(cfg, s, r, d, now, tags, i, batch, applied, done, displaced);
      } else {
        TaggingEnds(cfg, s, r, d, now, tags, i, batch, applied, done, displaced);
        if !ValidTag(t) { return Err(TagInvalid(t)), displaced; }
        batch, displaced := TakeTag(cfg, s, r, d, now, tags, i, t, batch, applied, done, displaced);
        applied, done := applied + [t], done + {t};
      }
      i := i + 1;
    }
    TaggingEnds(cfg, s, r, d, now, tags, i, batch, applied, done, displaced);
    out := Ok(batch);
  }

  /** The first `i` tags are valid, and `applied` lists them without repeats. */
  ghost predicate Seen(tags: seq<Tag>, i: nat, applied: seq<Tag>, done: set<Tag>)
    requires i <= |tags|
  {
    && done == Elements(tags[..i])
    && (forall t :: t in applied <==> t in done) && (applied == [] <==> i == 0)
    && AllValid(done)
    && FirstInvalidTag(tags) == FirstInvalidTag(tags[i..])
  }

  lemma NoneSeen(tags: seq<Tag>)
    ensures Seen(tags, 0, [], {})
  {
    assert tags[0..] == tags;
  }

  lemma SeenStarts(tags: seq<Tag>, i: nat, applied: seq<Tag>, done: set<Tag>)
    requires i < |tags| && (var seen := Seen(tags, i, applied, done); seen)
    ensures applied == [] <==> i == 0
  {}

  lemma SeenAgain(tags: seq<Tag>, i: nat, applied: seq<Tag>, done: set<Tag>)
    requires i < |tags| && (var seen := Seen(tags, i, applied, done); seen)
    requires tags[i] in applied
    ensures var seen := Seen(tags, i + 1, applied, done); seen
  {
    InvalidAhead(tags, i);
    ElementsSnoc(tags, i);
    assert done + {tags[i]} == done;
  }

  lemma SeenFresh(tags: seq<Tag>, i: nat, applied: seq<Tag>, done: set<Tag>, t: Tag)
    requires i < |tags| && (var seen := Seen(tags, i, applied, done); seen)
    requires t == tags[i] && ValidTag(t)
    ensures var seen := Seen(tags, i + 1, applied + [t], done + {t}); seen
  {
    InvalidAhead(tags, i);
    ElementsSnoc(tags, i);
  }

  lemma SeenInvalid(tags: seq<Tag>, i: nat, applied: seq<Tag>, done: set<Tag>)
    requires i < |tags| && (var seen := Seen(tags, i, applied, done); seen)
    requires !ValidTag(tags[i])
    ensures FirstInvalidTag(tags) == Some(tags[i])
  {
    InvalidAhead(tags, i);
  }

  lemma AllSeen(tags: seq<Tag>, applied: seq<Tag>, done: set<Tag>)
    requires var seen := Seen(tags, |tags|, applied, done); seen
    ensures done == Elements(tags) && FirstInvalidTag(tags).None?
  {
    assert tags[..|tags|] == tags;
  }

  lemma NoTagWrites(cfg: Config, r: RepoId, tags: set<Tag>, d: Digest, now: Millis)
    requires tags == {}
    ensures TagSetPuts(cfg, r, tags, d, now) == map[]
  {
    forall k: Key ensures k !in TagSetPuts(cfg, r, tags, d, now) {
      TagSetPutsAt(cfg, r, tags, d, now, k);
      assert !Written(cfg, r, tags, d, now, k);
    }
    NothingIn(TagSetPuts(cfg, r, tags, d, now));
  }

  lemma NothingIn(m: Data)
    requires forall k: Key :: k !in m
    ensures m == map[]
  {}

  lemma NoTagDeletes(cfg: Config, s: Data, r: RepoId, d: Digest)
    ensures TagSetDels(cfg, s, r, {}, d) == {}
  {}

  lemma NoTags(cfg: Config, s: Data, r: RepoId, d: Digest, now: Millis)
    ensures var staged := Staged(cfg, s, r, {}, d, now, []); staged
  {
    NoTagWrites(cfg, r, {}, d, now);
    NoTagDeletes(cfg, s, r, d);
    NetNothing();
  }
}
