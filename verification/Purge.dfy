/**
 The purge stages as they run: each call reads a page, grows a batch entry by entry, and applies
 it; the pass follows cursors to the end of each range. Every call is proved to be the step of
 the same name in the state machine, and the whole pass to be one simple change to the store.
 */
module Purge {
  import opened Results
  import opened Paging
  import opened Keys
  import opened MetaStore
  import opened Store
  import opened Registry
  import opened Guards
  import opened Invariants

  // --- what a whole pass does -------------------------------------------

  /** One key after the memberships `done` have been judged. */
  ghost predicate SweptEntry(s: Data, s': Data, done: set<Key>, cutoff: nat, k: Key) {
    if k.P? && k in done && Stale(s, k, cutoff) then k !in s'
    else if k.C? && Unstarted(s, done, cutoff, k.digest) then k !in s'
    else SameKey(s, s', k)
  }

  /** A retraction among `done` restarts this blob's clock. */
  ghost predicate Unstarted(s: Data, done: set<Key>, cutoff: nat, d: Digest) {
    exists k :: k in done && Stale(s, k, cutoff) && k.digest == d
  }

  ghost predicate Swept(s: Data, s': Data, done: set<Key>, cutoff: nat) {
    forall k: Key :: SweptEntry(s, s', done, cutoff, k)
  }

  /** One key after the blobs `done` have been judged. */
  ghost predicate JudgedEntry(s: Data, s': Data, done: set<Digest>, cutoff: nat, now: Millis, k: Key) {
    if k.B? && k.digest in done && Ripe(s, k.digest, cutoff) then k !in s'
    else if k.C? && k.digest in done then
      if Ripe(s, k.digest, cutoff) || Referenced(s, k.digest) then k !in s'
      else k in s' && s'[k] == if k in s then s[k] else MarkV(Secs(now))
    else SameKey(s, s', k)
  }

  ghost predicate Judged(s: Data, s': Data, done: set<Digest>, cutoff: nat, now: Millis) {
    forall k: Key :: JudgedEntry(s, s', done, cutoff, now, k)
  }

  function AllBlobs(s: Data): set<Digest> {
    set k | k in s && k.B? :: k.digest
  }

  /** The membership and blob stages of a pass nobody interrupts. */
  ghost predicate PurgePass(s: Data, s': Data, now: Millis, grace: nat) {
    exists mid: Data :: Swept(s, mid, Pool(s, Members), Ago(now, grace)) && Judged(mid, s', AllBlobs(mid), Ago(now, grace), now)
  }

  // --- batches, entry by entry ------------------------------------------

  lemma MoreStale(s: Data, keys: set<Key>, k: Key, cutoff: nat)
    ensures SweepMembers(s, keys + {k}, cutoff).dels ==
      if Stale(s, k, cutoff) then SweepMembers(s, keys, cutoff).dels + {k} + {C(k.digest)} else SweepMembers(s, keys, cutoff).dels
  {}

  lemma DelsOnly(s: Data, dels: set<Key>, a: Key, b: Key)
    ensures Perform(s, Effect(dels + {a} + {b}, map[])) == Perform(s, Effect(dels, map[])) - {a} - {b}
  {}

  /** The batch so far does what the effect says. */
  ghost predicate Does(s: Data, ops: seq<Op>, e: Effect) {
    Run(s, ops) == Perform(s, e)
  }

  lemma StageRetraction(s: Data, batch: seq<Op>, keys: set<Key>, k: Key, cutoff: nat)
    requires Does(s, batch, SweepMembers(s, keys, cutoff)) && Stale(s, k, cutoff)
    ensures Does(s, batch + [Delete(k)] + [Delete(C(k.digest))], SweepMembers(s, keys + {k}, cutoff))
  {
    MoreStale(s, keys, k, cutoff);
    DelsOnly(s, SweepMembers(s, keys, cutoff).dels, k, C(k.digest));
    RunSnoc(s, batch, Delete(k));
    RunSnoc(s, batch + [Delete(k)], Delete(C(k.digest)));
  }

  lemma StageNothing(s: Data, keys: set<Key>, k: Key, cutoff: nat)
    requires !Stale(s, k, cutoff)
    ensures SweepMembers(s, keys + {k}, cutoff) == SweepMembers(s, keys, cutoff)
  {
    MoreStale(s, keys, k, cutoff);
  }

  lemma MoreReferenced(s: Data, done: set<Digest>, d: Digest, now: Millis)
    requires Referenced(s, d)
    ensures Perform(s, ScanBlobs(s, done + {d}, now)) == Perform(s, ScanBlobs(s, done, now)) - {C(d)}
    ensures C(d) !in s ==> C(d) !in Perform(s, ScanBlobs(s, done, now))
  {
    ScanOneReferenced(s, done, d, now);
  }

  lemma ScanOneReferenced(s: Data, done: set<Digest>, d: Digest, now: Millis)
    requires Referenced(s, d)
    ensures ScanBlobs(s, done + {d}, now) == var e := ScanBlobs(s, done, now); Effect(e.dels + {C(d)}, e.puts)
    ensures C(d) !in ScanBlobs(s, done, now).puts
  {
    var e, e' := ScanBlobs(s, done, now), ScanBlobs(s, done + {d}, now);
    assert e'.dels == e.dels + {C(d)};
    assert e'.puts == e.puts;
  }

  lemma ScanOneUnmarked(s: Data, done: set<Digest>, d: Digest, now: Millis)
    requires !Referenced(s, d) && C(d) !in s
    ensures ScanBlobs(s, done + {d}, now) == var e := ScanBlobs(s, done, now); Effect(e.dels, e.puts[C(d) := MarkV(Secs(now))])
  {
    var e, e' := ScanBlobs(s, done, now), ScanBlobs(s, done + {d}, now);
    assert e'.dels == e.dels;
    assert e'.puts == e.puts[C(d) := MarkV(Secs(now))];
  }

  lemma MoreUnmarked(s: Data, done: set<Digest>, d: Digest, now: Millis)
    requires !Referenced(s, d) && C(d) !in s
    ensures Perform(s, ScanBlobs(s, done + {d}, now)) == Perform(s, ScanBlobs(s, done, now))[C(d) := MarkV(Secs(now))]
  {
    ScanOneUnmarked(s, done, d, now);
  }

  lemma MoreMarked(s: Data, done: set<Digest>, d: Digest, now: Millis)
    requires !Referenced(s, d) && C(d) in s
    ensures ScanBlobs(s, done + {d}, now) == ScanBlobs(s, done, now)
  {
    var e, e' := ScanBlobs(s, done, now), ScanBlobs(s, done + {d}, now);
    assert e'.dels == e.dels;
    assert e'.puts == e.puts;
  }

  lemma StageUnmark(s: Data, batch: seq<Op>, done: set<Digest>, d: Digest, now: Millis)
    requires Does(s, batch, ScanBlobs(s, done, now)) && Referenced(s, d)
    ensures Does(s, batch + [Delete(C(d))], ScanBlobs(s, done + {d}, now))
    ensures C(d) !in s ==> Does(s, batch, ScanBlobs(s, done + {d}, now))
  {
    MoreReferenced(s, done, d, now);
    RunSnoc(s, batch, Delete(C(d)));
    WithoutAbsent(Run(s, batch), C(d));
  }

  lemma WithoutAbsent(s: Data, k: Key)
    ensures k !in s ==> s - {k} == s
  {}

  lemma StageMark(s: Data, batch: seq<Op>, done: set<Digest>, d: Digest, now: Millis)
    requires Does(s, batch, ScanBlobs(s, done, now)) && !Referenced(s, d) && C(d) !in s
    ensures Does(s, batch + [Put(C(d), MarkV(Secs(now)))], ScanBlobs(s, done + {d}, now))
  {
    MoreUnmarked(s, done, d, now);
    RunSnoc(s, batch, Put(C(d), MarkV(Secs(now))));
  }

  lemma BlobsSnoc(keys: seq<Key>, i: nat)
    requires i < |keys| && keys[i].B?
    ensures BlobsOf(keys[..i + 1]) == BlobsOf(keys[..i]) + {keys[i].digest}
  {
    assert keys[..i + 1] == keys[..i] + [keys[i]];
    assert keys[i] in keys[..i + 1];
  }

  lemma MoreRipe(s: Data, done: set<Digest>, d: Digest, cutoff: nat)
    ensures RipeIn(s, done + {d}, cutoff) == if Ripe(s, d, cutoff) then RipeIn(s, done, cutoff) + {d} else RipeIn(s, done, cutoff)
  {}

  lemma NothingRetracted(s: Data, keys: seq<Key>, addedBefore: nat)
    ensures Elements(keys[..0]) == {} && Does(s, [], SweepMembers(s, {}, addedBefore))
  {
    assert SweepMembers(s, {}, addedBefore) == Effect({}, map[]);
  }

  // --- the stages -------------------------------------------------------

  /** The membership sweep's batch for one page. */
  method StageSweep(s: Data, keys: seq<Key>, addedBefore: nat) returns (batch: seq<Op>)
    requires forall k :: k in keys ==> k.P? && k in s
    ensures Run(s, batch) == Perform(s, SweepMembers(s, Elements(keys), addedBefore))
  {
    batch := [];
    ghost var done: set<Key> := {};
    NothingRetracted(s, keys, addedBefore);
    var i := 0;
    while i < |keys|
      invariant 0 <= i <= |keys| && done == Elements(keys[..i])
      invariant var does := Does(s, batch, SweepMembers(s, done, addedBefore)); does
    {
      var key := keys[i];
      ElementsSnoc(keys, i);
      var record := s[key];
      if record.MemberV? && record.addedAt <= addedBefore && !ReferencedIn(s, key.digest, key.repo) {
        StageRetraction(s, batch, done, key, addedBefore);
        batch := batch + [Delete(key)] + [Delete(C(key.digest))];
      } else {
        StageNothing(s, done, key, addedBefore);
      }
      done := done + {key};
      i := i + 1;
    }
    assert keys[..|keys|] == keys;
  }

  /** One blob's verdict: unmark it, mark it, or report it ripe. */
  method Judge(s: Data, d: Digest, seenBefore: nat, now: Millis, batch: seq<Op>, ghost done: set<Digest>) returns (more: seq<Op>, ripe: bool)
    requires Does(s, batch, ScanBlobs(s, done, now)) && B(d) in s
    ensures Does(s, more, ScanBlobs(s, done + {d}, now)) && ripe == Ripe(s, d, seenBefore)
  {
    more, ripe := batch, false;
    if Referenced(s, d) {
      StageUnmark(s, batch, done, d, now);
      if C(d) in s { more := batch + [Delete(C(d))]; }
    } else if C(d) !in s {
      StageMark(s, batch, done, d, now);
      more := batch + [Put(C(d), MarkV(Secs(now)))];
    } else {
      MoreMarked(s, done, d, now);
      ripe := s[C(d)].MarkV? && s[C(d)].seenAt <= seenBefore;
    }
  }

  /** The blob scan's batch for one page, and its ripe candidates. */
  method StageScan(s: Data, keys: seq<Key>, seenBefore: nat, now: Millis) returns (batch: seq<Op>, ripe: seq<Digest>)
    requires forall k :: k in keys ==> k.B? && k in s
    ensures Run(s, batch) == Perform(s, ScanBlobs(s, BlobsOf(keys), now))
    ensures Elements(ripe) == RipeIn(s, BlobsOf(keys), seenBefore)
  {
    batch, ripe := [], [];
    ghost var done: set<Digest> := {};
    NothingScanned(s, keys, seenBefore, now);
    var i := 0;
    while i < |keys|
      invariant 0 <= i <= |keys| && done == BlobsOf(keys[..i])
      invariant var does := Does(s, batch, ScanBlobs(s, done, now)); does
      invariant Elements(ripe) == RipeIn(s, done, seenBefore)
    {
      assert keys[i] in keys;
      var d, isRipe := keys[i].digest, false;
      BlobsSnoc(keys, i);
      MoreRipe(s, done, d, seenBefore);
      batch, isRipe := Judge(s, d, seenBefore, now, batch, done);
      if isRipe { ripe := ripe + [d]; }
      done := done + {d};
      i := i + 1;
    }
    assert keys[..|keys|] == keys;
  }

  lemma NothingScanned(s: Data, keys: seq<Key>, seenBefore: nat, now: Millis)
    ensures BlobsOf(keys[..0]) == {} && Does(s, [], ScanBlobs(s, {}, now)) && RipeIn(s, {}, seenBefore) == {}
  {
    var none: set<Digest> := {};
    assert ScanBlobs(s, none, now) == Effect({}, map[]);
  }

  class Purger {
    const engine: Engine

    constructor (e: Engine)
      ensures engine == e
    {
      engine := e;
    }

    /** Retract memberships whose manifest never arrived, one page of them. */
    method SweepRepoBlobs(cursor: Option<Key>, limit: nat, addedBefore: nat, reportOnly: bool) returns (page: Page<Key>)
      requires limit > 0
      modifies engine
      ensures IsPage(Before, Pool(old(engine.data), Members), cursor, limit, page)
      ensures engine.data == if reportOnly then old(engine.data)
                             else Perform(old(engine.data), SweepMembers(old(engine.data), Elements(page.keys), addedBefore))
    {
      page := engine.Scan(Members, cursor, limit);
      var batch := StageSweep(engine.data, page.keys, addedBefore);
      if !reportOnly { engine.Apply(batch); }
    }

    /** Walk one page of `B`: maintain the marks, and report what is ripe. */
    method ScanBlobPage(cursor: Option<Key>, limit: nat, seenBefore: nat, now: Millis, reportOnly: bool)
      returns (page: Page<Key>, ripe: seq<Digest>)
      requires limit > 0
      modifies engine
      ensures IsPage(Before, Pool(old(engine.data), Blobs), cursor, limit, page)
      ensures Elements(ripe) == RipeIn(old(engine.data), BlobsOf(page.keys), seenBefore)
      ensures engine.data == if reportOnly then old(engine.data)
                             else Perform(old(engine.data), ScanBlobs(old(engine.data), BlobsOf(page.keys), now))
    {
      page := engine.Scan(Blobs, cursor, limit);
      var batch;
      batch, ripe := StageScan(engine.data, page.keys, seenBefore, now);
      if !reportOnly { engine.Apply(batch); }
    }

    /** Retract a ripe blob's metadata, or decline to; every condition is checked again here. */
    method CollectOne(d: Digest, seenBefore: nat) returns (size: Option<nat>)
      modifies engine
      ensures size.Some? <==> CollectBlob(old(engine.data), d, seenBefore).Some?
      ensures size.Some? ==> size.value == SizeOf(old(engine.data), d)
      ensures size.Some? <==> Collectable(old(engine.data), d, seenBefore)
      ensures size.Some? && old(engine.data)[B(d)].BlobV? ==> old(engine.data)[B(d)] == BlobV(size.value)
      ensures engine.data == if size.Some? then old(engine.data) - {B(d), C(d)} else old(engine.data)
      ensures engine.data == match CollectBlob(old(engine.data), d, seenBefore)
                             case Some(e) => Perform(old(engine.data), e)
                             case None => old(engine.data)
    {
      var s := engine.data;
      RipeIff(s, d, seenBefore);
      if B(d) !in s || C(d) !in s { return None; }
      if !s[C(d)].MarkV? || s[C(d)].seenAt > seenBefore { return None; }
      if Referenced(s, d) { return None; }
      var batch: seq<Op> := [Delete(B(d))] + [Delete(C(d))];
      var none: seq<Op> := [];
      RunSnoc(s, none, Delete(B(d)));
      assert none + [Delete(B(d))] == [Delete(B(d))];
      RunSnoc(s, [Delete(B(d))], Delete(C(d)));
      engine.Apply(batch);
      assert engine.data == Perform(s, Effect({B(d), C(d)}, map[]));
      size := Some(SizeOf(s, d));
    }

    /** Follow the membership range to its end. */
    method PurgeMemberships(step: nat, cutoff: nat)
      requires step > 0
      modifies engine
      ensures Swept(old(engine.data), engine.data, Pool(old(engine.data), Members), cutoff)
    {
      ghost var s0 := engine.data;
      ghost var pool := Pool(s0, Members);
      var cursor: Option<Key> := None;
      KeysAreOrdered();
      NothingBehind(Before, pool);
      while true
        invariant Swept(s0, engine.data, Behind(Before, pool, cursor), cutoff)
        decreases Rest(Before, pool, cursor)
      {
        ghost var s := engine.data;
        var page := SweepRepoBlobs(cursor, step, cutoff, false);
        SweepAhead(s0, s, Before, cursor, cutoff);
        PageAhead(Before, pool, Pool(s, Members), cursor, step, page);
        PageExtends(Before, pool, cursor, step, page);
        SweepMore(s0, s, Behind(Before, pool, cursor), Elements(page.keys), cutoff);
        if page.next.None? { return; }
        PageShrinksRest(Before, pool, cursor, step, page);
        cursor := page.next;
      }
    }

    /** Collect one page's ripe candidates, each re-checked. */
    method CollectRipe(ripe: seq<Digest>, cutoff: nat)
      requires forall d :: d in ripe ==> Ripe(engine.data, d, cutoff)
      modifies engine
      ensures engine.data == old(engine.data) - Records(Elements(ripe))
    {
      ghost var s := engine.data;
      NoRecords(s);
      var i := 0;
      while i < |ripe|
        invariant 0 <= i <= |ripe|
        invariant engine.data == s - Records(Elements(ripe[..i]))
      {
        var d := ripe[i];
        assert Ripe(s, d, cutoff);
        CollectNext(s, Elements(ripe[..i]), d, cutoff);
        ElementsSnoc(ripe, i);
        var _ := CollectOne(d, cutoff);
        i := i + 1;
      }
      assert ripe[..|ripe|] == ripe;
    }

    /** Follow the blob range to its end, collecting as it goes. */
    method PurgeBlobs(step: nat, cutoff: nat, now: Millis)
      requires step > 0
      modifies engine
      ensures Judged(old(engine.data), engine.data, AllBlobs(old(engine.data)), cutoff, now)
    {
      ghost var s0 := engine.data;
      ghost var pool := Pool(s0, Blobs);
      var cursor: Option<Key> := None;
      KeysAreOrdered();
      NothingBehind(Before, pool);
      while true
        invariant Judged(s0, engine.data, Digests(Behind(Before, pool, cursor)), cutoff, now)
        decreases Rest(Before, pool, cursor)
      {
        ghost var s := engine.data;
        ghost var done := Behind(Before, pool, cursor);
        JudgeAhead(s0, s, Before, cursor, cutoff, now);
        var page, ripe := ScanBlobPage(cursor, step, cutoff, now, false);
        PageAhead(Before, pool, Pool(s, Blobs), cursor, step, page);
        PageExtends(Before, pool, cursor, step, page);
        DigestsJoin(page.keys, done);
        StillRipe(s, BlobsOf(page.keys), cutoff, now);
        JudgeMore(s0, s, Digests(done), BlobsOf(page.keys), cutoff, now);
        CollectRipe(ripe, cutoff);
        if page.next.None? { WholePool(s0); return; }
        PageShrinksRest(Before, pool, cursor, step, page);
        cursor := page.next;
      }
    }

    /** The membership and blob stages, in that order. */
    method PurgeOnce(step: nat, now: Millis, grace: nat)
      requires step > 0
      modifies engine
      ensures PurgePass(old(engine.data), engine.data, now, grace)
    {
      ghost var s := engine.data;
      PurgeMemberships(step, Ago(now, grace));
      ghost var mid := engine.data;
      PurgeBlobs(step, Ago(now, grace), now);
      assert Swept(s, mid, Pool(s, Members), Ago(now, grace));
    }
  }

  function Records(ds: set<Digest>): set<Key> {
    (set d | d in ds :: B(d)) + (set d | d in ds :: C(d))
  }

  lemma NoRecords(s: Data)
    ensures s - Records(Elements([])) == s
  {}

  lemma CollectNext(s: Data, gone: set<Digest>, d: Digest, cutoff: nat)
    requires Ripe(s, d, cutoff)
    ensures var cur := s - Records(gone);
      (match CollectBlob(cur, d, cutoff) case Some(e) => Perform(cur, e) case None => cur) == s - Records(gone + {d})
  {
    var cur := s - Records(gone);
    assert Records(gone + {d}) == Records(gone) + {B(d), C(d)};
    assert Referenced(cur, d) ==> Referenced(s, d);
    if d in gone { assert Records(gone + {d}) == Records(gone); }
  }

  function Digests(keys: set<Key>): set<Digest> {
    set k | k in keys && k.B? :: k.digest
  }

  lemma DigestsJoin(keys: seq<Key>, done: set<Key>)
    requires Elements(keys) !! done && forall k :: k in keys ==> k.B?
    ensures Digests(Elements(keys) + done) == BlobsOf(keys) + Digests(done)
    ensures BlobsOf(keys) !! Digests(done)
  {
    forall d | d in BlobsOf(keys) ensures d !in Digests(done) { assert B(d) in keys; }
    forall d | d in BlobsOf(keys) + Digests(done) ensures d in Digests(Elements(keys) + done) {
      assert B(d) in Elements(keys) + done && B(d).digest == d;
    }
  }

  lemma WholePool(s: Data)
    ensures Digests(Pool(s, Blobs)) == AllBlobs(s)
  {}

  lemma JudgeAhead(s0: Data, s: Data, lt: (Key, Key) -> bool, cursor: Option<Key>, cutoff: nat, now: Millis)
    requires Judged(s0, s, Digests(Behind(lt, Pool(s0, Blobs), cursor)), cutoff, now)
    ensures forall k :: After(lt, cursor, k) ==> (k in Pool(s0, Blobs) <==> k in Pool(s, Blobs))
  {
    var done := Digests(Behind(lt, Pool(s0, Blobs), cursor));
    forall k | After(lt, cursor, k) ensures k in Pool(s0, Blobs) <==> k in Pool(s, Blobs) {
      assert JudgedEntry(s0, s, done, cutoff, now, k);
      if k.B? && k.digest in done { assert B(k.digest) in Behind(lt, Pool(s0, Blobs), cursor); }
    }
  }

  /** The scan itself ripens and unripens nothing it reported. */
  lemma StillRipe(s: Data, page: set<Digest>, cutoff: nat, now: Millis)
    ensures forall d :: d in RipeIn(s, page, cutoff) ==> Ripe(Perform(s, ScanBlobs(s, page, now)), d, cutoff)
  {
    var s' := Perform(s, ScanBlobs(s, page, now));
    forall d | d in RipeIn(s, page, cutoff) ensures Ripe(s', d, cutoff) {
      assert Referenced(s', d) ==> Referenced(s, d);
    }
  }

  /** Judging one more page of blobs: scan it, then collect what was ripe. */
  lemma JudgeMore(s0: Data, s: Data, done: set<Digest>, page: set<Digest>, cutoff: nat, now: Millis)
    requires Judged(s0, s, done, cutoff, now) && page !! done && forall d :: d in page ==> B(d) in s0
    ensures Judged(s0, Perform(s, ScanBlobs(s, page, now)) - Records(RipeIn(s, page, cutoff)), page + done, cutoff, now)
  {
    var s' := Perform(s, ScanBlobs(s, page, now)) - Records(RipeIn(s, page, cutoff));
    forall k: Key ensures JudgedEntry(s0, s', page + done, cutoff, now, k) {
      assert JudgedEntry(s0, s, done, cutoff, now, k);
      if (k.B? || k.C?) && k.digest in page {
        JudgeKeeps(s0, s, done, k.digest, cutoff, now);
        JudgeOne(s, page, k.digest, cutoff, now);
      } else {
        ScanAt(s, page, cutoff, now, k);
      }
    }
  }

  lemma JudgeKeeps(s0: Data, s: Data, done: set<Digest>, d: Digest, cutoff: nat, now: Millis)
    requires Judged(s0, s, done, cutoff, now) && d !in done
    ensures SameKey(s0, s, B(d)) && SameKey(s0, s, C(d)) && Referenced(s, d) == Referenced(s0, d) && Ripe(s, d, cutoff) == Ripe(s0, d, cutoff)
  {
    assert JudgedEntry(s0, s, done, cutoff, now, B(d)) && JudgedEntry(s0, s, done, cutoff, now, C(d));
    forall j: Key | j.R? ensures SameKey(s0, s, j) { assert JudgedEntry(s0, s, done, cutoff, now, j); }
  }

  lemma JudgeOne(s: Data, page: set<Digest>, d: Digest, cutoff: nat, now: Millis)
    requires d in page && B(d) in s
    ensures var s' := Perform(s, ScanBlobs(s, page, now)) - Records(RipeIn(s, page, cutoff));
      && (B(d) in s' <==> !Ripe(s, d, cutoff)) && (B(d) in s' ==> s'[B(d)] == s[B(d)])
      && (C(d) in s' <==> !Ripe(s, d, cutoff) && !Referenced(s, d))
      && (C(d) in s' ==> s'[C(d)] == if C(d) in s then s[C(d)] else MarkV(Secs(now)))
  {
    assert B(d) in Records(RipeIn(s, page, cutoff)) <==> Ripe(s, d, cutoff);
    assert C(d) in Records(RipeIn(s, page, cutoff)) <==> Ripe(s, d, cutoff);
  }

  lemma ScanAt(s: Data, page: set<Digest>, cutoff: nat, now: Millis, k: Key)
    requires (k.B? || k.C?) ==> k.digest !in page
    ensures SameKey(s, Perform(s, ScanBlobs(s, page, now)) - Records(RipeIn(s, page, cutoff)), k)
  {}

  lemma SweepAhead(s0: Data, s: Data, lt: (Key, Key) -> bool, cursor: Option<Key>, cutoff: nat)
    requires Swept(s0, s, Behind(lt, Pool(s0, Members), cursor), cutoff)
    ensures forall k :: After(lt, cursor, k) ==> (k in Pool(s0, Members) <==> k in Pool(s, Members))
  {
    forall k | After(lt, cursor, k) ensures k in Pool(s0, Members) <==> k in Pool(s, Members) {
      assert SweptEntry(s0, s, Behind(lt, Pool(s0, Members), cursor), cutoff, k);
    }
  }

  /** Judging one more page of memberships. */
  lemma SweepMore(s0: Data, s: Data, done: set<Key>, page: set<Key>, cutoff: nat)
    requires Swept(s0, s, done, cutoff) && page !! done && (forall k :: k in page ==> k.P? && k in s0)
    ensures Swept(s0, Perform(s, SweepMembers(s, page, cutoff)), page + done, cutoff)
  {
    var s' := Perform(s, SweepMembers(s, page, cutoff));
    forall k | k in page ensures Stale(s, k, cutoff) == Stale(s0, k, cutoff) { SweepKeepsStale(s0, s, done, k, cutoff); }
    forall k: Key ensures SweptEntry(s0, s', page + done, cutoff, k) {
      assert SweptEntry(s0, s, done, cutoff, k);
      if k.C? { SweepMoreMarks(s0, s, done, page, cutoff, k.digest); }
    }
  }

  lemma SweepKeepsStale(s0: Data, s: Data, done: set<Key>, k: Key, cutoff: nat)
    requires Swept(s0, s, done, cutoff) && k.P? && k !in done
    ensures Stale(s, k, cutoff) == Stale(s0, k, cutoff)
  {
    assert SweptEntry(s0, s, done, cutoff, k);
    forall j: Key | j.R? ensures SameKey(s0, s, j) { assert SweptEntry(s0, s, done, cutoff, j); }
  }

  lemma SweepMoreMarks(s0: Data, s: Data, done: set<Key>, page: set<Key>, cutoff: nat, d: Digest)
    requires forall k :: k in page ==> k.P? && Stale(s, k, cutoff) == Stale(s0, k, cutoff)
    ensures Unstarted(s0, page + done, cutoff, d) <==> Unstarted(s0, done, cutoff, d) || C(d) in SweepMembers(s, page, cutoff).dels
  {
    if Unstarted(s0, page + done, cutoff, d) {
      var k :| k in page + done && Stale(s0, k, cutoff) && k.digest == d;
      if k in page { assert C(k.digest) in SweepMembers(s, page, cutoff).dels; }
    }
  }
}
