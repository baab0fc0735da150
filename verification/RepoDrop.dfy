/**
 Dropping a repository as the sweeper runs it - blob edges first, found through the manifests,
 then every range keyed by the id in one batch - and retiring a name that has nothing under it.
 */
module RepoDrop {
  import opened Results
  import opened Paging
  import opened Keys
  import opened MetaStore
  import opened Store
  import opened Interner
  import opened Registry
  import opened Guards
  import opened Invariants
  import opened Upkeep

  // --- blob edges -------------------------------------------------------

  lemma ManifestsSnoc(keys: seq<Key>, i: nat)
    requires i < |keys| && keys[i].M?
    ensures ManifestsOf(keys[..i + 1]) == ManifestsOf(keys[..i]) + {keys[i].digest}
  {
    assert keys[..i + 1] == keys[..i] + [keys[i]];
    assert keys[i] in keys[..i + 1];
  }

  function EdgesOf(r: RepoId, d: Digest, layers: seq<Digest>): set<Key> {
    set b | b in layers :: R(b, r, d)
  }

  lemma MoreSwept(s: Data, r: RepoId, page: set<Digest>, d: Digest)
    requires M(r, d) in s && s[M(r, d)].ManifestV?
    ensures SweepRefs(s, r, page + {d}).dels == SweepRefs(s, r, page).dels + EdgesOf(r, d, s[M(r, d)].layers)
  {}

  lemma NothingSwept(s: Data, r: RepoId)
    ensures Perform(s, SweepRefs(s, r, {})) == s
  {}

  /** The deletes one manifest's layers ask for. */
  method StageLayers(s: Data, r: RepoId, d: Digest, layers: seq<Digest>, batch: seq<Op>, ghost gone: set<Key>) returns (more: seq<Op>)
    requires Run(s, batch) == s - gone
    ensures Run(s, more) == s - (gone + EdgesOf(r, d, layers))
  {
    more := batch;
    assert EdgesOf(r, d, layers[..0]) == {} && gone + {} == gone;
    for j := 0 to |layers|
      invariant Run(s, more) == s - (gone + EdgesOf(r, d, layers[..j]))
    {
      RunSnoc(s, more, Delete(R(layers[j], r, d)));
      assert layers[..j + 1] == layers[..j] + [layers[j]];
      assert EdgesOf(r, d, layers[..j + 1]) == EdgesOf(r, d, layers[..j]) + {R(layers[j], r, d)};
      more := more + [Delete(R(layers[j], r, d))];
    }
    assert layers[..|layers|] == layers;
  }

  /** The deletes one page of manifests asks for. */
  method StageRefs(s: Data, r: RepoId, keys: seq<Key>) returns (batch: seq<Op>)
    requires forall k :: k in keys ==> k.M? && k.repo == r && k in s && s[k].ManifestV?
    ensures Run(s, batch) == Perform(s, SweepRefs(s, r, ManifestsOf(keys)))
  {
    batch := [];
    NothingSwept(s, r);
    assert ManifestsOf(keys[..0]) == {};
    for i := 0 to |keys|
      invariant Run(s, batch) == s - SweepRefs(s, r, ManifestsOf(keys[..i])).dels
    {
      assert keys[i] in keys && keys[i] == M(r, keys[i].digest);
      var d := keys[i].digest;
      ManifestsSnoc(keys, i);
      MoreSwept(s, r, ManifestsOf(keys[..i]), d);
      batch := StageLayers(s, r, d, s[keys[i]].layers, batch, SweepRefs(s, r, ManifestsOf(keys[..i])).dels);
    }
    assert keys[..|keys|] == keys;
  }

  // --- ranges -----------------------------------------------------------

  function Prefixes(ranges: seq<Range>): seq<Op> {
    seq(|ranges|, i requires 0 <= i < |ranges| => DeletePrefix(ranges[i]))
  }

  predicate Under(k: Key, ranges: seq<Range>) {
    exists g :: g in ranges && InRange(k, g)
  }

  lemma {:induction false} PrefixesDelete(s: Data, ranges: seq<Range>)
    ensures Run(s, Prefixes(ranges)) == s - (set k | k in s && Under(k, ranges))
    decreases |ranges|
  {
    if ranges == [] {
      assert Prefixes(ranges) == [];
    } else {
      var n := |ranges| - 1;
      PrefixesDelete(s, ranges[..n]);
      RunSnoc(s, Prefixes(ranges[..n]), DeletePrefix(ranges[n]));
      assert Prefixes(ranges) == Prefixes(ranges[..n]) + [DeletePrefix(ranges[n])];
      forall k ensures Under(k, ranges) <==> Under(k, ranges[..n]) || InRange(k, ranges[n]) { UnderSnoc(k, ranges); }
    }
  }

  lemma UnderSnoc(k: Key, ranges: seq<Range>)
    requires ranges != []
    ensures var n := |ranges| - 1; Under(k, ranges) <==> Under(k, ranges[..n]) || InRange(k, ranges[n])
  {
    var n := |ranges| - 1;
    assert ranges == ranges[..n] + [ranges[n]];
  }

  /** The range a key of the repository is dropped with. */
  function RangeFor(k: Key, r: RepoId): Range {
    match k
    case M(_, _) => ManifestsIn(r) case Z(_, _) => BodiesIn(r) case T(_, _) => TagsIn(r)
    case G(_, _, _) => ManifestTagsIn(r) case P(_, _) => MembersIn(r) case S(_, _, _) => ChildrenIn(r)
    case F(_, _, _) => ReferrersIn(r) case H(_, _, _, _) => HistoryIn(r) case J(_, _, _, _) => ManifestHistoryIn(r)
    case CountManifest(_, _, _, _) => CountersIn(ManifestScope, r)
    case CountTag(_, _, _, _) => CountersIn(TagScope, r)
    case _ => CountersIn(RepoScope, r)
  }

  lemma RangeIsDropped(k: Key, r: RepoId)
    ensures RangeFor(k, r) in RepoRanges(r) && (KeyedByRepo(k, r) ==> InRange(k, RangeFor(k, r)))
  {}

  lemma DroppedIsKeyed(k: Key, r: RepoId, g: Range)
    requires g in RepoRanges(r) && InRange(k, g)
    ensures KeyedByRepo(k, r)
  {}

  /** The twelve ranges a finished sweep drops are exactly the keys that carry the id up front. */
  lemma RangesCoverTheRepo(k: Key, r: RepoId)
    ensures Under(k, RepoRanges(r)) <==> KeyedByRepo(k, r)
  {
    RangeIsDropped(k, r);
    if Under(k, RepoRanges(r)) {
      var g :| g in RepoRanges(r) && InRange(k, g);
      DroppedIsKeyed(k, r, g);
    }
  }

  lemma FinishIsPrefixDeletes(s: Data, r: RepoId)
    ensures Run(s, Prefixes(RepoRanges(r)) + [Delete(Dead(r))]) == FinishSweep(s, r)
  {
    PrefixesDelete(s, RepoRanges(r));
    RunSnoc(s, Prefixes(RepoRanges(r)), Delete(Dead(r)));
    forall k ensures Under(k, RepoRanges(r)) <==> KeyedByRepo(k, r) { RangesCoverTheRepo(k, r); }
  }

  // --- the sweep --------------------------------------------------------

  /** The store with one repository gone: everyone else's keys, and nothing that mentions it. */
  function WithoutRepo(s: Data, r: RepoId): Data {
    s - (set k | k in s && (Mentions(k, r) || k == Dead(r)))
  }

  lemma SweepTwice(s: Data, r: RepoId, a: set<Digest>, b: set<Digest>)
    ensures var s1 := Perform(s, SweepRefs(s, r, a));
      Perform(s1, SweepRefs(s1, r, b)) == Perform(s, SweepRefs(s, r, b + a))
  {
    var s1 := Perform(s, SweepRefs(s, r, a));
    forall k: Key | k.M? ensures SameKey(s, s1, k) {}
    assert SweepRefs(s1, r, b).dels == SweepRefs(s, r, b).dels;
    assert SweepRefs(s, r, b + a).dels == SweepRefs(s, r, b).dels + SweepRefs(s, r, a).dels;
  }

  function Manifests(keys: set<Key>): set<Digest> {
    set k | k in keys && k.M? :: k.digest
  }

  lemma ManifestsJoin(keys: seq<Key>, done: set<Key>)
    ensures Manifests(Elements(keys) + done) == ManifestsOf(keys) + Manifests(done)
  {}

  lemma SweepLeavesManifests(s: Data, r: RepoId, page: set<Digest>)
    ensures Pool(Perform(s, SweepRefs(s, r, page)), ManifestsIn(r)) == Pool(s, ManifestsIn(r))
    ensures forall k: Key :: !k.R? ==> SameKey(s, Perform(s, SweepRefs(s, r, page)), k)
  {}

  /** Every edge of the repository is reachable through one of its manifests. */
  lemma SweptClean(cfg: Config, s: Data, r: RepoId)
    requires Inv(cfg, s)
    ensures Unreferencing(Perform(s, SweepRefs(s, r, Manifests(Pool(s, ManifestsIn(r))))), r)
    ensures forall k: Key :: !(k.R? && k.repo == r) ==> SameKey(s, Perform(s, SweepRefs(s, r, Manifests(Pool(s, ManifestsIn(r))))), k)
  {
    var all := Manifests(Pool(s, ManifestsIn(r)));
    var e := SweepRefs(s, r, all);
    forall k | k in s && k.R? && k.repo == r ensures k in e.dels {
      assert k == R(k.blob, r, k.manifest);
      assert M(r, k.manifest) in Pool(s, ManifestsIn(r)) && M(r, k.manifest).digest in all;
      assert k.blob in s[M(r, k.manifest)].layers;
    }
  }

  lemma SweptThenFinished(cfg: Config, s: Data, r: RepoId)
    requires Inv(cfg, s)
    ensures FinishSweep(Perform(s, SweepRefs(s, r, Manifests(Pool(s, ManifestsIn(r))))), r) == WithoutRepo(s, r)
  {
    SweptClean(cfg, s, r);
    var s1 := Perform(s, SweepRefs(s, r, Manifests(Pool(s, ManifestsIn(r)))));
    forall k: Key ensures k in FinishSweep(s1, r) <==> k in WithoutRepo(s, r) {
      assert (k.R? && k.repo == r) || SameKey(s, s1, k);
    }
    forall k: Key | k in FinishSweep(s1, r) ensures FinishSweep(s1, r)[k] == WithoutRepo(s, r)[k] {
      assert (k.R? && k.repo == r) || SameKey(s, s1, k);
    }
  }

  class Sweeper {
    const engine: Engine

    constructor (e: Engine)
      ensures engine == e
    {
      engine := e;
    }

    /** Retract the blob edges of one page of the repository's manifests. */
    method SweepRepoRefs(r: RepoId, cursor: Option<Key>, limit: nat) returns (page: Page<Key>)
      requires limit > 0 && forall d: Digest :: M(r, d) in engine.data ==> engine.data[M(r, d)].ManifestV?
      modifies engine
      ensures IsPage(Before, Pool(old(engine.data), ManifestsIn(r)), cursor, limit, page)
      ensures engine.data == Perform(old(engine.data), SweepRefs(old(engine.data), r, ManifestsOf(page.keys)))
    {
      page := engine.Scan(ManifestsIn(r), cursor, limit);
      forall k | k in page.keys ensures k.M? && k.repo == r && k in engine.data && engine.data[k].ManifestV? {
        assert k in Pool(engine.data, ManifestsIn(r)) && k == M(r, k.digest);
      }
      var batch := StageRefs(engine.data, r, page.keys);
      engine.Apply(batch);
    }

    /** Drop every range keyed by the id, and the record of the outstanding sweep. */
    method FinishRepoSweep(r: RepoId)
      modifies engine
      ensures engine.data == FinishSweep(old(engine.data), r)
    {
      FinishIsPrefixDeletes(engine.data, r);
      engine.Apply(Prefixes(RepoRanges(r)) + [Delete(Dead(r))]);
    }

    /**
     One repository, to completion: no key of any range mentions the id afterwards, and nobody
     else's key has changed. Starting over after an interruption is the same call.
     */
    method SweepOne(ghost cfg: Config, r: RepoId, step: nat)
      requires step > 0 && Inv(cfg, engine.data)
      modifies engine
      ensures engine.data == WithoutRepo(old(engine.data), r)
      ensures forall k: Key :: k in engine.data ==> !Mentions(k, r)
    {
      ghost var s0 := engine.data;
      ghost var pool := Pool(s0, ManifestsIn(r));
      var cursor: Option<Key> := None;
      KeysAreOrdered();
      assert Behind(Before, pool, None) == {};
      NothingSwept(s0, r);
      while true
        invariant engine.data == Perform(s0, SweepRefs(s0, r, Manifests(Behind(Before, pool, cursor))))
        decreases Rest(Before, pool, cursor)
      {
        ghost var done := Manifests(Behind(Before, pool, cursor));
        SweepLeavesManifests(s0, r, done);
        forall d: Digest | M(r, d) in engine.data ensures engine.data[M(r, d)].ManifestV? {
          assert SameKey(s0, engine.data, M(r, d));
        }
        var page := SweepRepoRefs(r, cursor, step);
        PageExtends(Before, pool, cursor, step, page);
        SweepTwice(s0, r, done, ManifestsOf(page.keys));
        ManifestsJoin(page.keys, Behind(Before, pool, cursor));
        if page.next.None? { break; }
        PageShrinksRest(Before, pool, cursor, step, page);
        cursor := page.next;
      }
      SweptThenFinished(cfg, s0, r);
      FinishRepoSweep(r);
    }

    /** The eight probes, in order, stopping at the first that finds something. */
    method ProbeEmpty(r: RepoId, live: set<RepoId>) returns (empty: bool)
      ensures empty == RepoIsEmpty(engine.data, r, live)
    {
      if r in live { return false; }
      var probes := Probes(r);
      var i := 0;
      while i < |probes|
        invariant 0 <= i <= |probes|
        invariant forall j :: 0 <= j < i ==> !Exists(engine.data, probes[j])
      {
        if Exists(engine.data, probes[i]) {
          ProbesDecide(engine.data, r, live);
          return false;
        }
        i := i + 1;
      }
      ProbesDecide(engine.data, r, live);
      empty := true;
    }

    /** Release an empty name, or decline to. */
    method RetireRepo(name: Name, live: set<RepoId>, internedBefore: RepoId) returns (retired: Option<RepoId>)
      modifies engine
      ensures retired.Some? <==> Retire(old(engine.data), name, live, internedBefore).Some?
      ensures retired.Some? ==> retired == IdOf(old(engine.data), name) && retired.value < internedBefore
      ensures retired.Some? <==> Retirable(old(engine.data), name, live, internedBefore)
      ensures engine.data == match Retire(old(engine.data), name, live, internedBefore)
                             case Some(e) => Perform(old(engine.data), e)
                             case None => old(engine.data)
    {
      var id := IdOf(engine.data, name);
      RetireIff(engine.data, name, live, internedBefore);
      if id.None? { return None; }
      var empty := ProbeEmpty(id.value, live);
      if id.value >= internedBefore || !empty { return None; }
      TwoDeletes(engine.data, N(name), I(id.value));
      engine.Apply([Delete(N(name)), Delete(I(id.value))]);
      retired := id;
    }
  }

  function Probes(r: RepoId): seq<Range> {
    [ManifestsIn(r), MembersIn(r), TagsIn(r), HistoryIn(r), ManifestHistoryIn(r),
     CountersIn(ManifestScope, r), CountersIn(TagScope, r), CountersIn(RepoScope, r)]
  }

  lemma ProbesDecide(s: Data, r: RepoId, live: set<RepoId>)
    ensures RepoIsEmpty(s, r, live) <==> r !in live && forall i :: 0 <= i < |Probes(r)| ==> !Exists(s, Probes(r)[i])
  {
    var p := Probes(r);
    assert p[0] == ManifestsIn(r) && p[1] == MembersIn(r) && p[2] == TagsIn(r) && p[3] == HistoryIn(r);
    assert p[4] == ManifestHistoryIn(r) && p[5] == CountersIn(ManifestScope, r);
    assert p[6] == CountersIn(TagScope, r) && p[7] == CountersIn(RepoScope, r);
  }
}
